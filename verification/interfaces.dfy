/*******************************************************************************
 *  The error records, the shared walk state and the control keys
 *  (src/interfaces.ts).
 *******************************************************************************/

module Interfaces {
  import opened Values
  import opened Types
  import Utils

  /** One element of an error message: text, or a value the printer renders. */
  datatype Fragment =
    | Text(s: string)
    | Datum(v: Value)
    | TypeOf(t: Ty)
    | TypeList(ts: seq<Ty>)
    | Count(n: nat)
    | CaseList(cases: seq<Case>)
    | Code(e: Expr)

  /** An error: where in the data it was found and what is wrong. */
  datatype LierError = LierError(path: seq<string>, message: seq<Fragment>)

  /**
   * An entry of the shared error list.  Almost every entry is a `LierError`;
   * `not` appends bare message fragments to the list instead.
   */
  datatype Issue = Record(err: LierError) | Loose(frag: Fragment)

  /** A member of the visited set: a datum (primitives by value, objects by address) or a type object. */
  datatype Ident = DataId(v: Value) | TypeId(id: Id)

  /**
   * The state shared by every step of one validate or mock run.  `visited` is
   * the validator's set of (datum, type) members on the current descent.
   */
  datatype Root = Root(
    data: Value,
    schema: Ty,
    declares: Ty,
    isMock: bool,
    errors: seq<Issue>,
    visited: set<Ident>,
    cycleDeep: nat)

  /** A validation root: no errors yet, nothing visited. */
  function NewRoot(data: Value, schema: Ty, declares: Ty): (r: Root)
    ensures r.errors == [] && r.visited == {} && !r.isMock
    ensures r.data == data && r.schema == schema && r.declares == declares
  {
    Root(data, schema, declares, false, [], {}, 0)
  }

  const REST_KEY: string := "$rest"
  const DEFINITIONS_KEY: string := "$definitions"
  const EXPORT_KEY: string := "$export"

  const CONTROL_KEYS: set<string> := {REST_KEY, DEFINITIONS_KEY, EXPORT_KEY}

  /** The control keys are exactly three, and each is spelled as a control key. */
  lemma ControlKeysAreControl()
    ensures CONTROL_KEYS == {"$rest", "$definitions", "$export"}
    ensures forall k :: k in CONTROL_KEYS ==> Utils.IsControlKey(k) && !Utils.IsPatternKey(k)
  {
  }
}
