/**
 * The template syntax tree the compiler walks, as the parser hands it over.
 *
 * Name fields that the compiler only ever reads through `.value` of a name node (set targets,
 * macro and parameter names, block names, import bindings) are kept as the name string.  The
 * loop variable of `for`, the callee of a call or filter, the key of a dict entry and the key
 * of a keyword argument stay nodes, because the compiler inspects their kind.
 */
module Ast {
  import opened Wrappers
  import opened Text

  /** A literal value: a string, an integral number or a boolean. */
  datatype LitValue = Str(s: string) | Int(i: int) | Bool(b: bool)

  datatype BinOp = Or | And | Add | Sub | Mul | Div | FloorDiv | Mod | Pow

  datatype UnOp = Not | Neg | Pos

  /** One argument of a call or filter; `key` is present for a keyword argument. */
  datatype Arg = Arg(key: Option<Node>, value: Node)

  /** A macro parameter and its optional default value. */
  datatype Param = Param(name: string, default: Option<Node>)

  /** One `<op> <expr>` step of a comparison chain. */
  datatype CompareOperand = CompareOperand(op: string, expr: Node)

  /** One name requested by `from ... import`, with its optional alias. */
  datatype ImportName = ImportName(name: string, alias: Option<string>)
  {
    /** The name the imported value is bound to: the alias if there is one. */
    function Bound(): string
    {
      alias.GetOr(name)
    }
  }

  datatype Node =
    | Literal(lit: LitValue)
    | Symbol(name: string)
    | Group(children: seq<Node>)
    | Array(children: seq<Node>)
    | Dict(children: seq<Node>)
    | Pair(key: Node, value: Node)
    | Binary(op: BinOp, left: Node, right: Node)
    | Unary(uop: UnOp, target: Node)
    | Compare(expr: Node, ops: seq<CompareOperand>)
    | LookupVal(target: Node, val: Node)
    | FunCall(callee: Node, args: seq<Arg>)
    | Filter(callee: Node, args: seq<Arg>)
    | Set(targets: seq<string>, value: Node)
    | If(cond: Node, body: Node, else_: Option<Node>)
    | For(loopVar: Node, arr: Node, body: Node)
    | Macro(name: string, params: seq<Param>, body: Node)
    | Import(template: Node, binding: string)
    | FromImport(template: Node, names: seq<ImportName>)
    | Block(name: string, body: Node)
    | Extends(template: Node)
    | Include(template: Node)
    | Output(children: seq<Node>)
    | TemplateData(lit: LitValue)
    | Root(children: seq<Node>)
    | NodeList(children: seq<Node>)
      /** A node kind the compiler has no handler for; `typename` names it. */
    | Unknown(typename: string)

  /** The kinds whose nodes carry a `children` list. */
  predicate HasChildren(n: Node)
  {
    n.Group? || n.Array? || n.Dict? || n.Output? || n.Root? || n.NodeList?
  }

  /** The node's `typename`, as the dispatch and the error messages use it. */
  function KindName(n: Node): string
  {
    match n
    case Literal(_) => "Literal"
    case Symbol(_) => "Symbol"
    case Group(_) => "Group"
    case Array(_) => "Array"
    case Dict(_) => "Dict"
    case Pair(_, _) => "Pair"
    case Binary(op, _, _) => (
      match op
      case Or => "Or"
      case And => "And"
      case Add => "Add"
      case Sub => "Sub"
      case Mul => "Mul"
      case Div => "Div"
      case FloorDiv => "FloorDiv"
      case Mod => "Mod"
      case Pow => "Pow")
    case Unary(op, _) => (
      match op
      case Not => "Not"
      case Neg => "Neg"
      case Pos => "Pos")
    case Compare(_, _) => "Compare"
    case LookupVal(_, _) => "LookupVal"
    case FunCall(_, _) => "FunCall"
    case Filter(_, _) => "Filter"
    case Set(_, _) => "Set"
    case If(_, _, _) => "If"
    case For(_, _, _) => "For"
    case Macro(_, _, _) => "Macro"
    case Import(_, _) => "Import"
    case FromImport(_, _) => "FromImport"
    case Block(_, _) => "Block"
    case Extends(_) => "Extends"
    case Include(_) => "Include"
    case Output(_) => "Output"
    case TemplateData(_) => "TemplateData"
    case Root(_) => "Root"
    case NodeList(_) => "NodeList"
    case Unknown(t) => t
  }

  /** The node kinds `_compileExpression` accepts, in the order it lists them. */
  const ExpressionKinds: seq<string> :=
    ["Literal", "Symbol", "Group", "Array", "Dict", "FunCall", "Filter",
     "LookupVal", "Compare", "And", "Or", "Not"]

  /**
   * `n instanceof <kind>`: the node is of the named kind.  A node of a kind this model does
   * not know is an instance of none of the known kinds, whatever its typename says.
   */
  predicate InstanceOf(n: Node, kind: string)
  {
    !n.Unknown? && KindName(n) == kind
  }

  /** Only a symbol is an instance of `Symbol`. */
  lemma SymbolKind(n: Node)
    ensures InstanceOf(n, "Symbol") <==> n.Symbol?
  {
  }

  /** Whether `_compileExpression` accepts the node. */
  predicate IsExpressionKind(n: Node)
  {
    exists k :: k in ExpressionKinds && InstanceOf(n, k)
  }

  /** JavaScript's `String(v)` of a literal value. */
  function LitString(v: LitValue): string
  {
    match v
    case Str(s) => s
    case Int(i) => IntToString(i)
    case Bool(b) => if b then "true" else "false"
  }

  /**
   * `String(node.value)`: the text a name node contributes when concatenated into code.
   * Nodes whose `value` field holds a node print as an object; nodes without a `value`
   * field print as `undefined`.
   */
  function ValueText(n: Node): string
  {
    match n
    case Literal(v) => LitString(v)
    case TemplateData(v) => LitString(v)
    case Symbol(x) => x
    case Pair(_, _) => "[object Object]"
    case Set(_, _) => "[object Object]"
    case _ => "undefined"
  }

  /** The kinds whose nodes have a `value` field. */
  predicate HasValueField(n: Node)
  {
    n.Literal? || n.TemplateData? || n.Symbol? || n.Pair? || n.Set?
  }

  /**
   * The text `name.value` contributes when it is pushed as a fragment and the fragments are
   * joined with `join("")`: a missing `value` (JavaScript `undefined`) contributes nothing,
   * where string concatenation would have written `undefined`.
   */
  function JoinText(n: Node): (r: string)
    ensures HasValueField(n) ==> r == ValueText(n)
    ensures !HasValueField(n) ==> r == "" && ValueText(n) == "undefined"
  {
    match n
    case Literal(v) => LitString(v)
    case TemplateData(v) => LitString(v)
    case Symbol(x) => x
    case Pair(_, _) => "[object Object]"
    case Set(_, _) => "[object Object]"
    case _ => ""
  }

  /** The values of the positional arguments, in order (the first half of `collectArgs`). */
  function Positional(args: seq<Arg>): (r: seq<Node>)
    ensures |r| <= |args|
    ensures forall v :: v in r ==> exists a :: a in args && a.key.None? && a.value == v
  {
    if args == [] then []
    else
      var a := args[|args| - 1];
      Positional(args[..|args| - 1]) + (if a.key.None? then [a.value] else [])
  }

  /** The keyword arguments, in order (the second half of `collectArgs`). */
  function Keyword(args: seq<Arg>): (r: seq<Arg>)
    ensures |r| <= |args|
    ensures forall a :: a in r ==> a in args && a.key.Some?
  {
    if args == [] then []
    else
      var a := args[|args| - 1];
      Keyword(args[..|args| - 1]) + (if a.key.Some? then [a] else [])
  }

  /** No argument is lost: each goes to the positional list or to the keyword list. */
  lemma {:induction false} ArgsCollected(args: seq<Arg>)
    ensures forall i :: 0 <= i < |args| && args[i].key.None? ==> args[i].value in Positional(args)
    ensures forall i :: 0 <= i < |args| && args[i].key.Some? ==> args[i] in Keyword(args)
  {
    if args != [] {
      var init := args[..|args| - 1];
      ArgsCollected(init);
      forall i | 0 <= i < |args| - 1
        ensures args[i] == init[i]
      {
      }
    }
  }

  /** The last argument extends one of the two lists. */
  lemma ArgsSnoc(args: seq<Arg>)
    requires args != []
    ensures var a := args[|args| - 1];
      Positional(args) == Positional(args[..|args| - 1]) + (if a.key.None? then [a.value] else []) &&
      Keyword(args) == Keyword(args[..|args| - 1]) + (if a.key.Some? then [a] else [])
  {
  }

  /** Positional arguments are collected in argument order: splitting the arguments splits the list. */
  lemma {:induction false} PositionalAppend(x: seq<Arg>, y: seq<Arg>)
    ensures Positional(x + y) == Positional(x) + Positional(y)
    decreases |y|
  {
    if y == [] {
      assert x + y == x;
    } else {
      var xy := x + y;
      assert xy[..|xy| - 1] == x + y[..|y| - 1] && xy[|xy| - 1] == y[|y| - 1];
      PositionalAppend(x, y[..|y| - 1]);
      ArgsSnoc(xy);
      ArgsSnoc(y);
    }
  }

  /** Keyword arguments are collected in argument order: splitting the arguments splits the list. */
  lemma {:induction false} KeywordAppend(x: seq<Arg>, y: seq<Arg>)
    ensures Keyword(x + y) == Keyword(x) + Keyword(y)
    decreases |y|
  {
    if y == [] {
      assert x + y == x;
    } else {
      var xy := x + y;
      assert xy[..|xy| - 1] == x + y[..|y| - 1] && xy[|xy| - 1] == y[|y| - 1];
      KeywordAppend(x, y[..|y| - 1]);
      ArgsSnoc(xy);
      ArgsSnoc(y);
    }
  }

  /** Taking one more argument extends exactly one of the two lists, by that argument. */
  lemma ArgsStep(args: seq<Arg>, i: nat)
    requires i < |args|
    ensures Positional(args[..i + 1]) == Positional(args[..i]) + (if args[i].key.None? then [args[i].value] else [])
    ensures Keyword(args[..i + 1]) == Keyword(args[..i]) + (if args[i].key.Some? then [args[i]] else [])
  {
    assert args[..i + 1][..i] == args[..i];
  }

  /** Every argument lands in exactly one of the two lists. */
  lemma {:induction false} ArgsPartition(args: seq<Arg>)
    ensures |Positional(args)| + |Keyword(args)| == |args|
    ensures |Keyword(args)| == |args| ==> Positional(args) == []
  {
    if args != [] {
      ArgsPartition(args[..|args| - 1]);
    }
  }

  function ArgNodes(args: seq<Arg>): (r: seq<Node>)
    ensures forall c :: c in r ==> exists a :: a in args && (c == a.value || a.key == Some(c))
  {
    if args == [] then []
    else (if args[0].key.Some? then [args[0].key.value] else []) + [args[0].value] + ArgNodes(args[1..])
  }

  function ParamNodes(ps: seq<Param>): (r: seq<Node>)
    ensures forall c :: c in r ==> exists p :: p in ps && p.default == Some(c)
  {
    if ps == [] then []
    else (if ps[0].default.Some? then [ps[0].default.value] else []) + ParamNodes(ps[1..])
  }

  function OperandNodes(ops: seq<CompareOperand>): (r: seq<Node>)
    ensures forall c :: c in r ==> exists o :: o in ops && c == o.expr
  {
    if ops == [] then [] else [ops[0].expr] + OperandNodes(ops[1..])
  }

  /** The direct sub-nodes of a node, field by field, as a tree search visits them. */
  function Subnodes(n: Node): (r: seq<Node>)
    ensures forall c :: c in r ==> c < n
  {
    match n
    case Group(cs) => cs
    case Array(cs) => cs
    case Dict(cs) => cs
    case Output(cs) => cs
    case Root(cs) => cs
    case NodeList(cs) => cs
    case Pair(k, v) => [k, v]
    case Binary(_, l, r) => [l, r]
    case Unary(_, t) => [t]
    case Compare(e, ops) => [e] + OperandNodes(ops)
    case LookupVal(t, v) => [t, v]
    case FunCall(c, args) => [c] + ArgNodes(args)
    case Filter(c, args) => [c] + ArgNodes(args)
    case Set(_, v) => [v]
    case If(c, b, e) => [c, b] + (if e.Some? then [e.value] else [])
    case For(x, a, b) => [x, a, b]
    case Macro(_, ps, b) => ParamNodes(ps) + [b]
    case Import(t, _) => [t]
    case FromImport(t, _) => [t]
    case Block(_, b) => [b]
    case Extends(t) => [t]
    case Include(t) => [t]
    case _ => []
  }

  /** `m` occurs in the tree rooted at `n`. */
  ghost predicate Contains(n: Node, m: Node)
  {
    m == n || exists c :: c in Subnodes(n) && Contains(c, m)
  }

  /** `node.findAll(nodes.Block)`: every block of the tree, in pre-order. */
  function FindBlocks(n: Node): (r: seq<Node>)
    ensures forall b :: b in r ==> b.Block? && (b == n || b < n)
    decreases n, 1
  {
    (if n.Block? then [n] else []) + FindBlocksFrom(n, Subnodes(n), 0)
  }

  function FindBlocksFrom(n: Node, cs: seq<Node>, i: nat): (r: seq<Node>)
    requires i <= |cs|
    requires forall c :: c in cs ==> c < n
    ensures forall b :: b in r ==> b.Block? && b < n
    decreases n, 0, |cs| - i
  {
    if i == |cs| then [] else assert cs[i] in cs; FindBlocks(cs[i]) + FindBlocksFrom(n, cs, i + 1)
  }

  /** Only blocks of the tree are found. */
  lemma {:induction false} FindBlocksSound(n: Node, b: Node)
    requires b in FindBlocks(n)
    ensures b.Block? && Contains(n, b)
    decreases n, 1
  {
    if b != n {
      FindBlocksFromSound(n, Subnodes(n), 0, b);
    }
  }

  lemma {:induction false} FindBlocksFromSound(n: Node, cs: seq<Node>, i: nat, b: Node)
    requires i <= |cs| && cs == Subnodes(n)
    requires b in FindBlocksFrom(n, cs, i)
    ensures b.Block? && Contains(n, b)
    decreases n, 0, |cs| - i
  {
    assert cs[i] in cs;
    if b in FindBlocks(cs[i]) {
      FindBlocksSound(cs[i], b);
    } else {
      FindBlocksFromSound(n, cs, i + 1, b);
    }
  }

  /** Every block of the tree is found, nested ones included. */
  lemma {:induction false} FindBlocksComplete(n: Node, b: Node)
    requires b.Block? && Contains(n, b)
    ensures b in FindBlocks(n)
    decreases n
  {
    if b != n {
      var c :| c in Subnodes(n) && Contains(c, b);
      FindBlocksComplete(c, b);
      var i :| 0 <= i < |Subnodes(n)| && Subnodes(n)[i] == c;
      FindBlocksFromIncludes(n, Subnodes(n), 0, i, b);
    }
  }

  lemma {:induction false} FindBlocksFromIncludes(n: Node, cs: seq<Node>, j: nat, i: nat, b: Node)
    requires j <= i < |cs|
    requires forall c :: c in cs ==> c < n
    requires b in FindBlocks(cs[i])
    ensures b in FindBlocksFrom(n, cs, j)
    decreases i - j
  {
    if j < i {
      FindBlocksFromIncludes(n, cs, j + 1, i, b);
    }
  }
}
