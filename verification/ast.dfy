/*******************************************************************************
 *  The parsed schema program: the node kinds the lowering compiler
 *  (src/grammar/transform/ast-lier.ts) and the reference checker
 *  (src/grammar/check.ts) dispatch on.
 *******************************************************************************/

module Ast {
  import opened Values

  datatype Node =
    | NoNode                                              // an absent child (null or undefined)
    | UnaryN(op: string, arg: Node)
    | MemberN(host: Node, props: seq<Node>)               // host.p1.p2… ; props are path nodes
    | BinaryN(op: string, left: Node, right: Node)
    | ObjectN(members: seq<Node>)                         // property nodes, and comments
    | PropertyN(decorators: seq<Node>, key: Node, optional: bool, body: Node)
    | DecoratorN(name: string, args: seq<Node>)
    | EnumN(items: seq<Node>)
    | MatchN(test: Node, cases: seq<Node>)
    | CaseN(test: Node, body: Node)
    | SelfN
    | CallN(callee: Node, args: seq<Node>)
    | TupleN(items: seq<Node>)
    | IdentN(name: string)
    | PathN(computed: bool, target: Node)                 // one step of a member access
    | NullN
    | BoolN(b: bool)
    | NumN(n: int)
    | StrN(s: string)
    | RegN(re: Regex)
    | DeclareN(path: seq<string>, body: Node)             // `type a.b = …`
    | RestN(inner: Node)
    | OptionalN(inner: Node)
    | ElementN(declarations: seq<Node>, assignment: Node) // a program: declarations, then the schema
    | ArrayN(inner: Node)                                 // `T[]`
    | CommentN(text: string)
    | OtherN(kind: string)                                // a node kind neither table handles

  /** The children the handlers loop over: properties, members, arguments, items, cases, declarations. */
  function Kids(n: Node): (r: seq<Node>)
    ensures forall k :: 0 <= k < |r| ==> r[k] < n
  {
    match n
    case MemberN(_, props) => props
    case ObjectN(members) => members
    case DecoratorN(_, args) => args
    case EnumN(items) => items
    case MatchN(_, cases) => cases
    case CallN(_, args) => args
    case TupleN(items) => items
    case ElementN(declarations, _) => declarations
    case _ => []
  }

  /** The path nodes of `x.k1.k2…`. */
  function Steps(ks: seq<string>): (ns: seq<Node>)
    ensures |ns| == |ks| && forall i :: 0 <= i < |ks| ==> ns[i] == PathN(false, IdentN(ks[i]))
  {
    if ks == [] then [] else [PathN(false, IdentN(ks[0]))] + Steps(ks[1..])
  }
}
