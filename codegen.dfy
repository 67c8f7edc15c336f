/**
 * What compiling a node does, as pure functions: the fragments appended to the code buffer,
 * the temporaries drawn from the counter, the current output buffer, the child flag and the
 * compile-time frame.  Each `Gen...` function follows one handler of the `Compiler` class
 * statement by statement, in state-passing style, and is the specification the class's
 * methods are proved against.
 *
 * A thrown error becomes `Failed(...)`; fragments emitted before the throw stay in the code.
 * The frame argument is absent when the handler receives `undefined` (see `GenSet`); a
 * handler that then uses the frame fails with `UndefinedFrame`.  The frame in a `Step` is the
 * frame object the caller holds afterwards: handlers only ever bind names in the frame they
 * are given or in a child they push, so passing frames as values loses no sharing.
 */
module CodeGen {
  import opened Wrappers
  import opened Frames
  import opened Text
  import opened Ast

  datatype CompileError =
    | CannotCompile(kind: string)
    | InvalidType(kind: string)
    | BadDictKey
    | MultipleExtends
    | RootHasFrame
      /** A handler used a frame it was given as `undefined` (a JavaScript `TypeError`). */
    | UndefinedFrame
      /** A key/value loop target with fewer than two names (a JavaScript `TypeError`). */
    | MissingLoopName

  /** The message of the `Error` each failure throws. */
  function Message(e: CompileError): string
  {
    match e
    case CannotCompile(k) => "Cannot compile node: " + k
    case InvalidType(k) => "invalid type: " + k
    case BadDictKey => "Dict keys must be strings or names"
    case MultipleExtends => "cannot extend multiple times"
    case RootHasFrame => "root node can't have frame"
    case UndefinedFrame => "Cannot read properties of undefined (frame)"
    case MissingLoopName => "Cannot read properties of undefined (loop name)"
  }

  datatype Status = Done | Failed(error: CompileError)

  /** The fields of a `Compiler`: code buffer, last temporary id, current output buffer, child flag. */
  datatype State = State(code: seq<string>, lastId: nat, buffer: Option<string>, isChild: bool)
  {
    /** `emit(x)` */
    function Emit(x: string): State
    {
      this.(code := code + [x])
    }

    /** `emitLine(x)` */
    function EmitLine(x: string): State
    {
      Emit(x + "\n")
    }

    /** The counter step of `tmpid`; the name handed out is `TmpName(Next().lastId)`. */
    function Next(): (r: State)
      ensures r.lastId == lastId + 1
      ensures r.code == code && r.buffer == buffer && r.isChild == isChild
    {
      this.(lastId := lastId + 1)
    }

    /** `this.buffer` as it reads inside concatenated code (`null` when unset). */
    function BufferName(): string
    {
      match buffer
      case None => "null"
      case Some(b) => b
    }

    /** `emitFuncBegin(name)` */
    function FuncBegin(name: string): (r: State)
      ensures r.buffer == Some("output") && r.lastId == lastId && r.isChild == isChild
      ensures r.code == code + [FuncHeader(name) + "\n", "var " + "output" + " = \"\";" + "\n"]
    {
      var s := this.(buffer := Some("output"));
      s.EmitLine(FuncHeader(name))
        .EmitLine("var " + s.BufferName() + " = \"\";")
    }

    /** `emitFuncEnd(noReturn)` */
    function FuncEnd(noReturn: bool): (r: State)
      ensures r.buffer == None && r.lastId == lastId && r.isChild == isChild
      ensures r.code == code + (if noReturn then [] else ["return " + BufferName() + ";" + "\n"]) + ["}" + "\n"]
    {
      var s := if noReturn then this else EmitLine("return " + BufferName() + ";");
      s.EmitLine("}").(buffer := None)
    }
  }

  /** The first line of a generated function. */
  function FuncHeader(name: string): string
  {
    "function " + name + "(env, context, frame, runtime) {"
  }

  /** The fields right after `init`. */
  const Initial: State := State([], 0, None, false)

  /** Outcome of compiling: status, the caller's frame afterwards, the new fields. */
  datatype Step = Step(status: Status, frame: Option<Frame>, st: State)

  /**
   * The fields only move forward: fragments are appended and never rewritten, the counter
   * never goes back, and the child flag is never cleared.
   */
  predicate Grows(s: State, t: State)
  {
    s.code <= t.code && s.lastId <= t.lastId && (s.isChild ==> t.isChild)
  }

  /** The caller's frame survives, with the same parent chain; only its own bindings may differ. */
  predicate SameChain(f: Option<Frame>, g: Option<Frame>)
  {
    f.Some? == g.Some? && (f.Some? ==> g.value.Parent() == f.value.Parent())
  }

  /**
   * What every handler keeps: the fields grow, the frame chain is kept, and on success the
   * output buffer is either the one before or unset (only root compilation unsets it).
   */
  predicate Keeps(f: Option<Frame>, s: State, r: Step)
  {
    Grows(s, r.st) && SameChain(f, r.frame) &&
    (r.status.Done? ==> r.st.buffer == s.buffer || r.st.buffer == None)
  }

  /** The code `compileLiteral` emits for a value. */
  function LitCode(v: LitValue): (r: string)
    ensures v.Str? ==> |r| >= 2 && r[0] == '"' && r[|r| - 1] == '"' && r[1..|r| - 1] == EscapeAsWritten(v.s)
    ensures !v.Str? ==> r == LitString(v)
  {
    match v
    case Str(s) => "\"" + EscapeAsWritten(s) + "\""
    case _ => LitString(v)
  }

  /** The three-way lookup emitted for a name with no compile-time binding. */
  function FallbackLookup(name: string): (r: string)
    ensures forall x :: r != LocalName(x)
    ensures forall k :: r != TmpName(k)
  {
    var head := "context.lookup(\"";
    var r := head + (name + "\") || " + "frame.lookup(\"" + name + "\") || " + "\"\"");
    assert r[0] == head[0] == 'c';
    assert forall x :: LocalName(x)[0] == 'l';
    assert forall k :: TmpName(k)[0] == 't';
    r
  }

  /** The `compareOps` table. */
  const CompareOps: map<string, string> :=
    map["==" := "==", "!=" := "!=", "<" := "<", ">" := ">", "<=" := "<=", ">=" := ">="]

  /** `compareOps[op]` as it reads in concatenated code (`undefined` for an unlisted operator). */
  function CompareText(op: string): (r: string)
    ensures op in CompareOps ==> r == op
    ensures op !in CompareOps ==> r == "undefined"
  {
    if op in CompareOps then CompareOps[op] else "undefined"
  }

  /** The operator text `binOpEmitter` is built with, for the operators that use it. */
  function BinOpText(op: BinOp): (r: string)
    ensures op != Pow ==> |r| >= 3 && r[0] == ' ' && r[|r| - 1] == ' '
    ensures op == Pow ==> r == ", "
  {
    match op
    case Or => " || "
    case And => " && "
    case Add => " + "
    case Sub => " - "
    case Mul => " * "
    case Div => " / "
    case Mod => " % "
    case FloorDiv => " / "
    case Pow => ", "
  }

  /** The operator character of `compileNot`, `compileNeg` and `compilePos`. */
  function UnOpText(op: UnOp): (r: string)
    ensures |r| == 1
  {
    match op
    case Not => "!"
    case Neg => "-"
    case Pos => "+"
  }

  /** The line that stores a value under `name` in the render context. */
  function SetVariableLine(name: string, id: string): (r: string)
    ensures CallsSetVariable(r)
  {
    var head := "context.setVariable(\"";
    head + (name + "\", " + id + ");")
  }

  /** The line that lists `name` among the template's exports. */
  function AddExportLine(name: string): (r: string)
    ensures "context.addExport(\"" <= r && !CallsSetVariable(r)
  {
    var head := "context.addExport(\"";
    var r := head + (name + "\");");
    assert r[8] == head[8] == 'a';
    r
  }

  /** A line that stores a value in the render context. */
  predicate CallsSetVariable(x: string)
  {
    "context.setVariable(\"" <= x
  }

  /** The identifier a macro parameter, macro or import binds a name to. */
  function LocalName(name: string): (r: string)
    ensures |r| == |name| + 2 && r[..2] == "l_" && r[2..] == name
  {
    "l_" + name
  }

  /** `_compileExpression`: the kind check, then `compile`. */
  function GenExpr(n: Node, f: Option<Frame>, s: State): (r: Step)
    ensures Keeps(f, s, r)
    decreases n, 4
  {
    if !IsExpressionKind(n) then Step(Failed(InvalidType(KindName(n))), f, s)
    else Gen(n, f, s)
  }

  /** `compile`: dispatch on the node kind (split in two groups only to keep proofs small). */
  function Gen(n: Node, f: Option<Frame>, s: State): (r: Step)
    ensures Keeps(f, s, r)
    decreases n, 3
  {
    if IsValueSyntax(n) then GenValue(n, f, s) else GenStatement(n, f, s)
  }

  /** The node kinds that build values, as opposed to statements and containers. */
  predicate IsValueSyntax(n: Node)
  {
    n.Literal? || n.Symbol? || n.Group? || n.Array? || n.Dict? || n.Pair? || n.Binary? ||
    n.Unary? || n.Compare? || n.LookupVal? || n.FunCall? || n.Filter?
  }

  /** `compile` on a value-building node. */
  function GenValue(n: Node, f: Option<Frame>, s: State): (r: Step)
    requires IsValueSyntax(n)
    ensures Keeps(f, s, r)
    decreases n, 2
  {
    match n
    case Literal(v) => Step(Done, f, s.Emit(LitCode(v)))
    case Symbol(x) => GenSymbol(x, f, s)
    case Group(_) => GenAggregate(n, "(", ")", f, s)
    case Array(_) => GenAggregate(n, "[", "]", f, s)
    case Dict(_) => GenAggregate(n, "{", "}", f, s)
    case Pair(_, _) => GenPair(n, f, s)
    case Binary(_, _, _) => GenBinary(n, f, s)
    case Unary(_, _) => GenUnary(n, f, s)
    case Compare(_, _) => GenCompare(n, f, s)
    case LookupVal(_, _) => GenLookupVal(n, f, s)
    case FunCall(_, _) => GenFunCall(n, f, s)
    case Filter(_, _) => GenFilter(n, f, s)
  }

  /** `compile` on any other node (split in two groups only to keep proofs small). */
  function GenStatement(n: Node, f: Option<Frame>, s: State): (r: Step)
    requires !IsValueSyntax(n)
    ensures Keeps(f, s, r)
    decreases n, 2, 1
  {
    if IsDefinition(n) then GenDefinition(n, f, s) else GenContent(n, f, s)
  }

  /** The node kinds that bind names or shape the template as a whole. */
  predicate IsDefinition(n: Node)
  {
    n.Set? || n.Macro? || n.Import? || n.FromImport? || n.Block? || n.Extends? || n.Root?
  }

  /** `compile` on a node that binds names or shapes the template. */
  function GenDefinition(n: Node, f: Option<Frame>, s: State): (r: Step)
    requires IsDefinition(n)
    ensures Keeps(f, s, r)
    decreases n, 2, 0
  {
    match n
    case Set(_, _) => GenSet(n, f, s)
    case Macro(_, _, _) => GenMacro(n, f, s)
    case Import(_, _) => GenImport(n, f, s)
    case FromImport(_, _) => GenFromImport(n, f, s)
    case Block(name, _) => Step(Done, f, s.EmitLine(BlockCall(s, name)))
    case Extends(_) => GenExtends(n, f, s)
    case Root(_) => GenRoot(n, f, s)
  }

  /** `compile` on the remaining nodes: control flow and output; an unknown kind has no handler. */
  function GenContent(n: Node, f: Option<Frame>, s: State): (r: Step)
    requires !IsValueSyntax(n) && !IsDefinition(n)
    ensures Keeps(f, s, r)
    decreases n, 2, 0
  {
    match n
    case If(_, _, _) => GenIf(n, f, s)
    case For(_, _, _) => GenFor(n, f, s)
    case Include(_) => GenInclude(n, f, s)
    case Output(_) => GenOutput(n, f, s)
    case TemplateData(v) => Step(Done, f, s.Emit(LitCode(v)))
    case NodeList(_) => GenSeqFrom(n, 0, false, f, s)
    case Unknown(k) => Step(Failed(CannotCompile(k)), f, s)
  }

  /** `compileSymbol` */
  function GenSymbol(name: string, f: Option<Frame>, s: State): (r: Step)
    ensures Keeps(f, s, r)
  {
    if f.None? then Step(Failed(UndefinedFrame), f, s)
    else
      var v := f.value.Lookup(name);
      if v.Some? && v.value != "" then Step(Done, f, s.Emit(v.value))
      else Step(Done, f, s.Emit(FallbackLookup(name)))
  }

  /** `compileBlock`: the line that renders the block's current override into the buffer. */
  function BlockCall(s: State, name: string): (r: string)
    ensures s.BufferName() + " += " <= r
  {
    s.BufferName() + " += context.getBlock(\"" + name + "\")(env, context, frame);"
  }

  /**
   * The children of `n` from index `i` on: `_compileChildren` when `comma` is false, the loop
   * of `_compileAggregate` (a `,` before every child but the first) when it is true.
   */
  function GenSeqFrom(n: Node, i: nat, comma: bool, f: Option<Frame>, s: State): (r: Step)
    requires HasChildren(n) && i <= |n.children|
    ensures Keeps(f, s, r)
    decreases n, 0, |n.children| - i
  {
    if i == |n.children| then Step(Done, f, s)
    else
      var s1 := if comma && i > 0 then s.Emit(",") else s;
      var r := Gen(n.children[i], f, s1);
      if r.status.Failed? then r
      else GenSeqFrom(n, i + 1, comma, r.frame, r.st)
  }

  /** `_compileAggregate(node, frame, open, close)` */
  function GenAggregate(n: Node, open: string, close: string, f: Option<Frame>, s: State): (r: Step)
    requires n.Group? || n.Array? || n.Dict?
    ensures Keeps(f, s, r)
    decreases n, 1
  {
    var r := GenSeqFrom(n, 0, true, f, s.Emit(open));
    if r.status.Failed? then r
    else Step(Done, r.frame, r.st.Emit(close))
  }

  /**
   * `compilePair`.  A symbol key is emitted as a string literal.  The source tests
   * `typeof node.value` on the pair itself, whose `value` is a node and never a string, so
   * every other key, literal keys included, is rejected.
   */
  function GenPair(n: Node, f: Option<Frame>, s: State): (r: Step)
    requires n.Pair?
    ensures Keeps(f, s, r)
    decreases n, 1
  {
    if !n.key.Symbol? then Step(Failed(BadDictKey), f, s)
    else GenExpr(n.value, f, s.Emit(LitCode(Str(n.key.name))).Emit(": "))
  }

  /** `binOpEmitter`, `compileFloorDiv` and `compilePow` */
  function GenBinary(n: Node, f: Option<Frame>, s: State): (r: Step)
    requires n.Binary?
    ensures Keeps(f, s, r)
    decreases n, 1
  {
    if n.op == FloorDiv || n.op == Pow then
      var r1 := Gen(n.left, f, s.Emit(if n.op == FloorDiv then "Math.floor(" else "Math.pow("));
      if r1.status.Failed? then r1
      else
        var r2 := Gen(n.right, r1.frame, r1.st.Emit(BinOpText(n.op)));
        if r2.status.Failed? then r2
        else Step(Done, r2.frame, r2.st.Emit(")"))
    else
      var r1 := Gen(n.left, f, s);
      if r1.status.Failed? then r1
      else Gen(n.right, r1.frame, r1.st.Emit(BinOpText(n.op)))
  }

  /** `compileNot`, `compileNeg`, `compilePos` */
  function GenUnary(n: Node, f: Option<Frame>, s: State): (r: Step)
    requires n.Unary?
    ensures Keeps(f, s, r)
    decreases n, 1
  {
    Gen(n.target, f, s.Emit(UnOpText(n.uop)))
  }

  /** `compileCompare` */
  function GenCompare(n: Node, f: Option<Frame>, s: State): (r: Step)
    requires n.Compare?
    ensures Keeps(f, s, r)
    decreases n, 1
  {
    var r := Gen(n.expr, f, s);
    if r.status.Failed? then r
    else GenOperandsFrom(n, 0, r.frame, r.st)
  }

  /** The loop of `compileCompare` from operand `i` on. */
  function GenOperandsFrom(n: Node, i: nat, f: Option<Frame>, s: State): (r: Step)
    requires n.Compare? && i <= |n.ops|
    ensures Keeps(f, s, r)
    decreases n, 0, |n.ops| - i
  {
    if i == |n.ops| then Step(Done, f, s)
    else
      var r := GenOperand(n, i, f, s);
      if r.status.Failed? then r
      else GenOperandsFrom(n, i + 1, r.frame, r.st)
  }

  /** One iteration of the loop of `compileCompare`: the operator, then its operand. */
  function GenOperand(n: Node, i: nat, f: Option<Frame>, s: State): (r: Step)
    requires n.Compare? && i < |n.ops|
    ensures Keeps(f, s, r)
    decreases n, 0, 0
  {
    Gen(n.ops[i].expr, f, s.Emit(" " + CompareText(n.ops[i].op) + " "))
  }

  /** `compileLookupVal` */
  function GenLookupVal(n: Node, f: Option<Frame>, s: State): (r: Step)
    requires n.LookupVal?
    ensures Keeps(f, s, r)
    decreases n, 1
  {
    var r1 := GenExpr(n.target, f, s.Emit("("));
    if r1.status.Failed? then r1
    else
      var r2 := GenExpr(n.val, r1.frame, r1.st.Emit(")").Emit("["));
      if r2.status.Failed? then r2
      else Step(Done, r2.frame, r2.st.Emit("]"))
  }

  /** `_emitWrappedExpression`: the callee in parentheses. */
  function GenWrapped(n: Node, f: Option<Frame>, s: State): (r: Step)
    requires n.FunCall?
    ensures Keeps(f, s, r)
    decreases n, 0
  {
    var r := GenExpr(n.callee, f, s.Emit("("));
    if r.status.Failed? then r
    else Step(Done, r.frame, r.st.Emit(")"))
  }

  /** `_emitCallArgs(args, frame, open, close)` for arguments taken from `n`. */
  function GenCallArgs(n: Node, args: seq<Node>, open: string, close: string, f: Option<Frame>, s: State): (r: Step)
    requires forall a :: a in args ==> a < n
    ensures Keeps(f, s, r)
    decreases n, 0, |args| + 1
  {
    var r := GenCallArgsFrom(n, args, 0, f, s.Emit(open));
    if r.status.Failed? then r
    else Step(Done, r.frame, r.st.Emit(close))
  }

  /** The loop of `_emitCallArgs` from argument `i` on: `, ` before every argument but the first. */
  function GenCallArgsFrom(n: Node, args: seq<Node>, i: nat, f: Option<Frame>, s: State): (r: Step)
    requires i <= |args|
    requires forall a :: a in args ==> a < n
    ensures Keeps(f, s, r)
    decreases n, 0, |args| - i
  {
    if i == |args| then Step(Done, f, s)
    else
      var r := GenCallArg(n, args, i, f, s);
      if r.status.Failed? then r
      else GenCallArgsFrom(n, args, i + 1, r.frame, r.st)
  }

  /** One turn of the loop of `_emitCallArgs`: stop at a failure, otherwise go on. */
  lemma CallArgsFromUnfold(n: Node, args: seq<Node>, i: nat, f: Option<Frame>, s: State)
    requires i < |args|
    requires forall a :: a in args ==> a < n
    ensures var r := GenCallArg(n, args, i, f, s);
      GenCallArgsFrom(n, args, i, f, s) == if r.status.Failed? then r else GenCallArgsFrom(n, args, i + 1, r.frame, r.st)
  {
  }

  /** One iteration of the loop of `_emitCallArgs`. */
  function GenCallArg(n: Node, args: seq<Node>, i: nat, f: Option<Frame>, s: State): (r: Step)
    requires i < |args|
    requires forall a :: a in args ==> a < n
    ensures Keeps(f, s, r)
    decreases n, 0, 0
  {
    var s1 := if i != 0 then s.Emit(", ") else s;
    assert args[i] in args;
    Gen(args[i], f, s1)
  }

  /**
   * `_emitCallKwargs`: note that no separator is emitted between entries.  Each key is
   * pushed as `name.value` itself and the fragments are later joined, so a key node without
   * a `value` contributes nothing (see `JoinText`).
   */
  function GenKwargs(n: Node, kw: seq<Arg>, f: Option<Frame>, s: State): (r: Step)
    requires forall a :: a in kw ==> a.key.Some? && a.value < n
    ensures Keeps(f, s, r)
    decreases n, 0, |kw| + 1
  {
    var r := GenKwargsFrom(n, kw, 0, f, s.Emit("{"));
    if r.status.Failed? then r
    else Step(Done, r.frame, r.st.Emit("}"))
  }

  function GenKwargsFrom(n: Node, kw: seq<Arg>, i: nat, f: Option<Frame>, s: State): (r: Step)
    requires i <= |kw|
    requires forall a :: a in kw ==> a.key.Some? && a.value < n
    ensures Keeps(f, s, r)
    decreases n, 0, |kw| - i
  {
    if i == |kw| then Step(Done, f, s)
    else
      var r := GenKwarg(n, kw, i, f, s);
      if r.status.Failed? then r
      else GenKwargsFrom(n, kw, i + 1, r.frame, r.st)
  }

  /** One turn of the loop of `_emitCallKwargs`: stop at a failure, otherwise go on. */
  lemma KwargsFromUnfold(n: Node, kw: seq<Arg>, i: nat, f: Option<Frame>, s: State)
    requires i < |kw|
    requires forall a :: a in kw ==> a.key.Some? && a.value < n
    ensures var r := GenKwarg(n, kw, i, f, s);
      GenKwargsFrom(n, kw, i, f, s) == if r.status.Failed? then r else GenKwargsFrom(n, kw, i + 1, r.frame, r.st)
  {
  }

  /** One iteration of the loop of `_emitCallKwargs`: `key: value`. */
  function GenKwarg(n: Node, kw: seq<Arg>, i: nat, f: Option<Frame>, s: State): (r: Step)
    requires i < |kw|
    requires forall a :: a in kw ==> a.key.Some? && a.value < n
    ensures Keeps(f, s, r)
    decreases n, 0, 0
  {
    assert kw[i] in kw;
    Gen(kw[i].value, f, s.Emit(JoinText(kw[i].key.value)).Emit(": "))
  }

  lemma ArgsBelow(n: Node)
    requires n.FunCall? || n.Filter?
    ensures forall v :: v in Positional(n.args) ==> v < n
    ensures forall a :: a in Keyword(n.args) ==> a.key.Some? && a.value < n
  {
  }

  /**
   * `compileFunCall`: the callee is emitted three times, once for the `isMacro` test, once
   * called with (positional list, keyword object), once called with the positional arguments.
   */
  function GenFunCall(n: Node, f: Option<Frame>, s: State): (r: Step)
    requires n.FunCall?
    ensures Keeps(f, s, r)
    decreases n, 1, 1
  {
    var r1 := GenWrapped(n, f, s);
    if r1.status.Failed? then r1
    else
      var r2 := GenWrapped(n, r1.frame, r1.st.Emit(".isMacro ? "));
      if r2.status.Failed? then r2
      else GenCallBranches(n, r2.frame, r2.st)
  }

  /**
   * The two branches of the conditional `compileFunCall` emits: the macro call, given the
   * positional list and the keyword object, then the plain call with the positional arguments.
   */
  function GenCallBranches(n: Node, f: Option<Frame>, s: State): (r: Step)
    requires n.FunCall?
    ensures Keeps(f, s, r)
    decreases n, 1, 0
  {
    ArgsBelow(n);
    var pos, kw := Positional(n.args), Keyword(n.args);
    var r3 := GenCallArgs(n, pos, "[", "]", f, s.Emit("("));
    if r3.status.Failed? then r3
    else
      var r4 := GenKwargs(n, kw, r3.frame, r3.st.Emit(", "));
      if r4.status.Failed? then r4
      else
        var r5 := GenWrapped(n, r4.frame, r4.st.Emit(") : "));
        if r5.status.Failed? then r5
        else GenCallArgs(n, pos, "(", ")", r5.frame, r5.st)
  }

  /** `compileFilter`: the filter name must be a symbol; only positional arguments are passed. */
  function GenFilter(n: Node, f: Option<Frame>, s: State): (r: Step)
    requires n.Filter?
    ensures Keeps(f, s, r)
    decreases n, 1
  {
    if !n.callee.Symbol? then Step(Failed(InvalidType(KindName(n.callee))), f, s)
    else
      ArgsBelow(n);
      GenCallArgs(n, Positional(n.args), "(", ")", f, s.Emit("env.getFilter(\"" + n.callee.name + "\")"))
  }

  /**
   * `compileSet`.  As written, the value is compiled without a frame, so any symbol inside
   * it fails.  Every target is published with `setVariable`, child template or not; names
   * not starting with `_` are also exported.
   */
  function GenSet(n: Node, f: Option<Frame>, s: State): (r: Step)
    requires n.Set?
    ensures Keeps(f, s, r)
    decreases n, 1
  {
    var s1 := s.Next();
    var id := TmpName(s1.lastId);
    var r := GenExpr(n.value, None, s1.Emit("var " + id + " = "));
    if r.status.Failed? then Step(r.status, f, r.st)
    else Step(Done, f, SetTargetsFrom(n.targets, 0, id, r.st.EmitLine(";")))
  }

  /** The loop of `compileSet` over its targets, from target `i` on. */
  function SetTargetsFrom(ts: seq<string>, i: nat, id: string, s: State): (t: State)
    requires i <= |ts|
    ensures Grows(s, t) && t.lastId == s.lastId && t.buffer == s.buffer && t.isChild == s.isChild
    decreases |ts| - i
  {
    if i == |ts| then s
    else SetTargetsFrom(ts, i + 1, id, SetTarget(s, ts[i], id))
  }

  /** One iteration of the target loop of `compileSet`: publish, and export unless private. */
  function SetTarget(s: State, t: string, id: string): (r: State)
    ensures r == s.(code := r.code) && s.code <= r.code
  {
    var s1 := s.EmitLine(SetVariableLine(t, id));
    if !StartsWithUnderscore(t) then s1.EmitLine(AddExportLine(t)) else s1
  }

  /** `compileIf` */
  function GenIf(n: Node, f: Option<Frame>, s: State): (r: Step)
    requires n.If?
    ensures Keeps(f, s, r)
    decreases n, 1
  {
    var r1 := GenExpr(n.cond, f, s.Emit("if("));
    if r1.status.Failed? then r1
    else
      var r2 := Gen(n.body, r1.frame, r1.st.EmitLine(") {"));
      if r2.status.Failed? then r2
      else
        var r3 := if n.else_.Some? then Gen(n.else_.value, r2.frame, r2.st.EmitLine("}\nelse {")) else r2;
        if r3.status.Failed? then r3
        else Step(Done, r3.frame, r3.st.EmitLine("}"))
  }

  /**
   * `compileFor` up to its body: two temporaries (index, array), a pushed frame, the array
   * expression, then the loop header of one of the two forms with the loop variable(s) bound
   * to further temporaries in the pushed frame.  On success the step's frame is the one the
   * body is compiled in.
   */
  function GenForHead(n: Node, f: Option<Frame>, s: State): (r: Step)
    requires n.For?
    ensures Grows(s, r.st)
    ensures r.status.Done? ==> f.Some? && r.frame.Some? && r.frame.value.Parent() == f
    ensures r.status.Done? ==> r.st.buffer == s.buffer || r.st.buffer == None
    decreases n, 0
  {
    var s1 := s.Next();
    var i := TmpName(s1.lastId);
    var s2 := s1.Next();
    var arr := TmpName(s2.lastId);
    if f.None? then Step(Failed(UndefinedFrame), f, s2)
    else
      var r := GenExpr(n.arr, Some(f.value.Push()), s2.EmitLine("frame = frame.push();").Emit("var " + arr + " = "));
      if r.status.Failed? then r
      else LoopTargets(n.loopVar, r.frame.value, i, arr, r.st.EmitLine(";"))
  }

  /**
   * The rest of the header of `compileFor`: fresh names for the loop variables, bound in
   * the loop's frame `inner`, and the JavaScript loop over the array held in `arr` with
   * index `i`.  A key/value target needs two names.
   */
  function LoopTargets(target: Node, inner: Frame, i: string, arr: string, s: State): (r: Step)
    ensures Grows(s, r.st) && r.st.buffer == s.buffer
    ensures r.frame.Some? && r.frame.value.Parent() == inner.Parent()
    ensures r.status.Failed? <==> target.Array? && |target.children| < 2
    ensures r.status.Done? && target.Array? ==>
      r.st == KeyValueLoop(s.Next().Next(), i, arr, TmpName(s.lastId + 1), TmpName(s.lastId + 2),
                           ValueText(target.children[0]), ValueText(target.children[1]))
    ensures !target.Array? ==> r.st == ArrayLoop(s.Next(), i, arr, TmpName(s.lastId + 1), ValueText(target))
  {
    if target.Array? then
      var s1 := s.Next();
      var k := TmpName(s1.lastId);
      var s2 := s1.Next();
      var v := TmpName(s2.lastId);
      if |target.children| < 2 then Step(Failed(MissingLoopName), Some(inner), s2)
      else
        var key := ValueText(target.children[0]);
        var val := ValueText(target.children[1]);
        Step(Done, Some(inner.Set(key, k).Set(val, v)), KeyValueLoop(s2, i, arr, k, v, key, val))
    else
      var s1 := s.Next();
      var v := TmpName(s1.lastId);
      var name := ValueText(target);
      Step(Done, Some(inner.Set(name, v)), ArrayLoop(s1, i, arr, v, name))
  }

  /** The header of the loop `compileFor` emits for a key/value target `(key, val)`. */
  function KeyValueLoop(s: State, i: string, arr: string, k: string, v: string, key: string, val: string): (t: State)
    ensures t == s.(code := t.code) && s.code <= t.code
  {
    s.EmitLine("var " + i + " = -1;")
      .EmitLine("for(var " + k + " in " + arr + ") {")
      .EmitLine(i + "++;")
      .EmitLine("var " + v + " = " + arr + "[" + k + "];")
      .EmitLine("frame.set(\"" + key + "\", " + k + ");")
      .EmitLine("frame.set(\"" + val + "\", " + v + ");")
      .EmitLine("frame.set(\"loop.index\", " + i + " + 1);")
      .EmitLine("frame.set(\"loop.index0\", " + i + ");")
      .EmitLine("frame.set(\"loop.first\", " + i + " === 0);")
  }

  /** The header of the loop `compileFor` emits for a single-name target. */
  function ArrayLoop(s: State, i: string, arr: string, v: string, name: string): (t: State)
    ensures t == s.(code := t.code) && s.code <= t.code
  {
    s.EmitLine("for(var " + i + "=0; " + i + " < " + arr + ".length; " + i + "++) {")
      .EmitLine("var " + v + " = " + arr + "[" + i + "];")
      .EmitLine("frame.set(\"" + name + "\", " + v + ");")
      .EmitLine("frame.set(\"loop.index\", " + i + " + 1);")
      .EmitLine("frame.set(\"loop.index0\", " + i + ");")
      .EmitLine("frame.set(\"loop.revindex\", " + arr + ".length - " + i + ");")
      .EmitLine("frame.set(\"loop.revindex0\", " + arr + ".length - " + i + " - 1);")
      .EmitLine("frame.set(\"loop.first\", " + i + " === 0);")
      .EmitLine("frame.set(\"loop.last\", " + i + " === " + arr + ".length - 1);")
      .EmitLine("frame.set(\"loop.length\", " + arr + ".length);")
  }

  /** `compileFor`: the head, the body in the pushed frame, then the loop is closed and the frame popped. */
  function GenFor(n: Node, f: Option<Frame>, s: State): (r: Step)
    requires n.For?
    ensures Keeps(f, s, r)
    decreases n, 1
  {
    var h := GenForHead(n, f, s);
    if h.status.Failed? then Step(h.status, f, h.st)
    else
      var r := Gen(n.body, h.frame, h.st);
      if r.status.Failed? then Step(r.status, f, r.st)
      else Step(Done, f, r.st.EmitLine("}").EmitLine("frame = frame.pop();"))
  }

  /** The frame after the parameter loop of `macroBody` has bound `ps` in `fr`. */
  function BindParams(fr: Frame, ps: seq<Param>): (r: Frame)
    ensures r.Parent() == fr.Parent()
  {
    if ps == [] then fr
    else
      var p := ps[|ps| - 1];
      BindParams(fr, ps[..|ps| - 1]).Set(p.name, LocalName(p.name))
  }

  /** The parameter identifiers the parameter loop of `macroBody` collects. */
  function ParamIds(ps: seq<Param>): (r: seq<string>)
    ensures |r| == |ps|
    ensures forall j :: 0 <= j < |ps| ==> r[j] == LocalName(ps[j].name)
  {
    if ps == [] then []
    else ParamIds(ps[..|ps| - 1]) + [LocalName(ps[|ps| - 1].name)]
  }

  /**
   * `macroBody`: a pushed frame with every parameter bound, the output buffer switched to
   * `macroOutput` for the body and switched back afterwards.  On success the step's frame is
   * the macro's own frame, as `macroBody` returns it.
   */
  function GenMacroBody(n: Node, f: Option<Frame>, s: State): (r: Step)
    requires n.Macro?
    ensures Grows(s, r.st)
    ensures r.status.Done? ==> f.Some? && r.frame.Some? && r.frame.value.Parent() == f
    ensures r.status.Done? ==> r.st.buffer == s.buffer
    decreases n, 0
  {
    if f.None? then Step(Failed(UndefinedFrame), f, s)
    else
      var s1 := s.EmitLine("frame = frame.push();");
      var mf := BindParams(f.value.Push(), n.params);
      var s2 := s1.EmitLine("var macro = function(" + Join(ParamIds(n.params), ", ") + ") {");
      var s3 := s2.(buffer := Some("macroOutput"));
      var s4 := s3.EmitLine("var " + s3.BufferName() + "= \"\";");
      var r := Gen(n.body, Some(mf), s4);
      if r.status.Failed? then r
      else
        var s5 := r.st.EmitLine("return " + r.st.BufferName() + ";").EmitLine("};");
        Step(Done, r.frame, s5.(buffer := s2.buffer).EmitLine("frame = frame.pop();"))
  }

  /** `macroDef`: the `wrapMacro` call with the parameter list and its defaults. */
  function GenMacroDef(n: Node, f: Option<Frame>, s: State): (r: Step)
    requires n.Macro?
    ensures Keeps(f, s, r)
    decreases n, 0, |n.params| + 2
  {
    var r := GenDefaultsFrom(n, 0, f, s.Emit("runtime.wrapMacro(macro, \"" + n.name + "\", " + "["));
    if r.status.Failed? then r
    else Step(Done, r.frame, r.st.EmitLine("], false, false, false);"))
  }

  /** The loop of `macroDef` from parameter `i` on: the entries, separated by `, `. */
  function GenDefaultsFrom(n: Node, i: nat, f: Option<Frame>, s: State): (r: Step)
    requires n.Macro? && i <= |n.params|
    ensures Keeps(f, s, r)
    decreases n, 0, |n.params| - i + 1
  {
    if i == |n.params| then Step(Done, f, s)
    else
      var r := GenParamEntry(n, n.params[i], f, s);
      if r.status.Failed? then r
      else GenDefaultsFrom(n, i + 1, r.frame, if i != |n.params| - 1 then r.st.Emit(", ") else r.st)
  }

  /** One entry of the list `macroDef` emits: the parameter name and its default, or `null`. */
  function GenParamEntry(n: Node, p: Param, f: Option<Frame>, s: State): (r: Step)
    requires n.Macro? && p in n.params
    ensures Keeps(f, s, r)
    decreases n, 0, 0
  {
    var s1 := s.Emit("[\"" + p.name + "\", ");
    var r := if p.default.Some? then Gen(p.default.value, f, s1) else Step(Done, f, s1.Emit("null"));
    if r.status.Failed? then r
    else Step(Done, r.frame, r.st.Emit("]"))
  }

  /**
   * `compileMacro`: body, then `var l_<name> = ` and the wrapper; the name is bound in the
   * enclosing frame, and unless compiling as a child it is exported (names not starting with
   * `_`) and published with `setVariable`.
   */
  function GenMacro(n: Node, f: Option<Frame>, s: State): (r: Step)
    requires n.Macro?
    ensures Keeps(f, s, r)
    decreases n, 1
  {
    var b := GenMacroBody(n, f, s);
    if b.status.Failed? then Step(b.status, f, b.st)
    else
      var d := GenMacroDef(n, b.frame, b.st.Emit("var " + LocalName(n.name) + " = "));
      if d.status.Failed? then Step(d.status, f, d.st)
      else Step(Done, Some(f.value.Set(n.name, LocalName(n.name))), Publish(n.name, d.st))
  }

  /** The closing lines of `compileMacro`: export and `setVariable`, unless compiling as a child. */
  function Publish(name: string, s: State): (r: State)
    ensures r == s.(code := r.code)
    ensures s.isChild ==> r == s
    ensures !s.isChild ==>
      r.code == s.code + (if !StartsWithUnderscore(name) then [AddExportLine(name) + "\n"] else []) +
                [SetVariableLine(name, LocalName(name)) + "\n"]
  {
    if s.isChild then s
    else
      var s1 := if !StartsWithUnderscore(name) then s.EmitLine(AddExportLine(name)) else s;
      s1.EmitLine(SetVariableLine(name, LocalName(name)))
  }

  /** `compileImport` */
  function GenImport(n: Node, f: Option<Frame>, s: State): (r: Step)
    requires n.Import?
    ensures Keeps(f, s, r)
    decreases n, 1
  {
    var r := Gen(n.template, f, s.Emit("var " + LocalName(n.binding) + " = env.getTemplate("));
    if r.status.Failed? then r
    else
      var s1 := r.st.EmitLine(").getModule();");
      if r.frame.None? then Step(Failed(UndefinedFrame), r.frame, s1)
      else
        Step(Done, Some(r.frame.value.Set(n.binding, LocalName(n.binding))),
          if !s1.isChild then s1.EmitLine(SetVariableLine(n.binding, LocalName(n.binding))) else s1)
  }

  /** `compileFromImport` */
  function GenFromImport(n: Node, f: Option<Frame>, s: State): (r: Step)
    requires n.FromImport?
    ensures Keeps(f, s, r)
    decreases n, 1
  {
    var r := Gen(n.template, f, s.Emit("var includedTemplate = env.getTemplate("));
    if r.status.Failed? then r
    else ImportNamesFrom(n.names, 0, r.frame, r.st.EmitLine(").getModule();"))
  }

  /** The loop of `compileFromImport` from name `i` on. */
  function ImportNamesFrom(names: seq<ImportName>, i: nat, f: Option<Frame>, s: State): (r: Step)
    requires i <= |names|
    ensures Keeps(f, s, r)
    decreases |names| - i
  {
    if i == |names| then Step(Done, f, s)
    else
      var r := ImportOne(names[i], f, s);
      if r.status.Failed? then r
      else ImportNamesFrom(names, i + 1, r.frame, r.st)
  }

  /**
   * One iteration of the loop of `compileFromImport`: the imported name (or its alias) is
   * bound to a local copy, in the frame and, unless compiling as a child, in the context.
   */
  function ImportOne(item: ImportName, f: Option<Frame>, s: State): (r: Step)
    ensures Keeps(f, s, r)
  {
    var alias := item.Bound();
    var s1 := GuardedImport(s, item.name, alias);
    if f.None? then Step(Failed(UndefinedFrame), f, s1)
    else
      Step(Done, Some(f.value.Set(alias, LocalName(alias))),
        if !s1.isChild then s1.EmitLine(SetVariableLine(alias, LocalName(alias))) else s1)
  }

  /** The lines of `compileFromImport` that copy one exported name into a local. */
  function GuardedImport(s: State, name: string, alias: string): (t: State)
    ensures t == s.(code := t.code) && s.code <= t.code
  {
    s.EmitLine("if(includedTemplate.hasOwnProperty(\"" + name + "\")) {")
      .EmitLine("var " + LocalName(alias) + " = includedTemplate." + name + ";")
      .EmitLine("} else {")
      .EmitLine("// Add runtime error here")
      .EmitLine("}")
  }

  /** `compileExtends` */
  function GenExtends(n: Node, f: Option<Frame>, s: State): (r: Step)
    requires n.Extends?
    ensures Keeps(f, s, r)
    decreases n, 1
  {
    if s.isChild then Step(Failed(MultipleExtends), f, s)
    else
      var r := GenExpr(n.template, f, s.Emit("var parentTemplate = env.getTemplate("));
      if r.status.Failed? then r
      else
        var s1 := r.st.EmitLine(", true);").Next();
        var k := TmpName(s1.lastId);
        var s2 := s1.EmitLine("for(var " + k + " in parentTemplate.blocks) {")
                    .EmitLine("context.addBlock(" + k + ", parentTemplate.blocks[" + k + "]);")
                    .EmitLine("}");
        Step(Done, r.frame, s2.(isChild := true))
  }

  /** `compileInclude` */
  function GenInclude(n: Node, f: Option<Frame>, s: State): (r: Step)
    requires n.Include?
    ensures Keeps(f, s, r)
    decreases n, 1
  {
    var r := GenExpr(n.template, f, s.Emit("var includeTemplate = env.getTemplate("));
    if r.status.Failed? then r
    else
      var s1 := r.st.EmitLine(");");
      Step(Done, r.frame, s1.EmitLine(s1.BufferName() + " += includeTemplate.render(" + "context.getVariables(), frame);"))
  }

  /** `compileOutput` */
  function GenOutput(n: Node, f: Option<Frame>, s: State): (r: Step)
    requires n.Output?
    ensures Keeps(f, s, r)
    decreases n, 1
  {
    var r := GenSeqFrom(n, 0, false, f, s.Emit(s.BufferName() + " += "));
    if r.status.Failed? then r
    else Step(Done, r.frame, r.st.Emit(";\n"))
  }

  /** The line that ends a child template's root function by rendering the parent. */
  const Delegation: string := "return parentTemplate.rootRenderFunc(env, context, frame, runtime);"

  /**
   * `compileRoot` up to the block functions: the `root` function around the top-level
   * statements, compiled in a fresh frame; a child template's root delegates to its parent
   * instead of returning its own output.  On success the step's frame is the root frame.
   */
  function GenRootFunction(n: Node, s: State): (r: Step)
    requires n.Root?
    ensures Grows(s, r.st)
    ensures r.status.Done? ==> r.frame.Some?
    decreases n, 0, |n.children| + 1
  {
    var r := GenSeqFrom(n, 0, false, Some(NewFrame()), s.FuncBegin("root"));
    if r.status.Failed? then r
    else
      var s1 := if r.st.isChild then r.st.EmitLine(Delegation) else r.st;
      Step(Done, r.frame, s1.FuncEnd(s1.isChild))
  }

  /** `compileRoot` */
  function GenRoot(n: Node, f: Option<Frame>, s: State): (r: Step)
    requires n.Root?
    ensures Keeps(f, s, r)
    decreases n, 1
  {
    if f.Some? then Step(Failed(RootHasFrame), f, s)
    else
      var r := GenRootFunction(n, s);
      if r.status.Failed? then Step(r.status, f, r.st)
      else
        var blocks := FindBlocks(n);
        var b := GenBlocksFrom(n, blocks, 0, r.frame.value, r.st);
        if b.status.Failed? then Step(b.status, f, b.st)
        else Step(Done, f, BlockTableFrom(blocks, 0, b.st.EmitLine("return {")).EmitLine("root: root\n};"))
  }

  /** The loop of `compileRoot` emitting one function per block, from block `i` on. */
  function GenBlocksFrom(n: Node, blocks: seq<Node>, i: nat, rf: Frame, s: State): (r: Step)
    requires n.Root? && i <= |blocks|
    requires forall b :: b in blocks ==> b.Block? && (b == n || b < n)
    ensures Grows(s, r.st)
    ensures r.frame.Some? && r.frame.value.Parent() == rf.Parent()
    ensures r.status.Done? ==> r.st.buffer == s.buffer || r.st.buffer == None
    ensures r.status.Done? ==> Subsequence(BlockHeaders(blocks[i..]), r.st.code[|s.code|..])
    decreases n, 0, |blocks| - i + 1
  {
    if i == |blocks| then
      assert blocks[i..] == [];
      Step(Done, Some(rf), s)
    else
      assert blocks[i] in blocks;
      var r := GenBlockFunction(n, blocks[i], rf, s);
      if r.status.Failed? then r
      else
        var rest := GenBlocksFrom(n, blocks, i + 1, r.frame.value, r.st);
        if rest.status.Done? then
          HeadersFrom(blocks, i, s.code, r.st.code, rest.st.code);
          rest
        else rest
  }

  /** The headers of the block functions, one per block, in order. */
  function BlockHeaders(blocks: seq<Node>): (r: seq<string>)
    requires forall b :: b in blocks ==> b.Block?
    ensures |r| == |blocks|
  {
    if blocks == [] then [] else [FuncHeader("b_" + blocks[0].name) + "\n"] + BlockHeaders(blocks[1..])
  }

  /**
   * The headers from block `i` on follow `c0` in `c`: block `i`'s header right after `c0`,
   * then the later ones after `c1`.
   */
  lemma HeadersFrom(blocks: seq<Node>, i: nat, c0: seq<string>, c1: seq<string>, c: seq<string>)
    requires i < |blocks| && forall b :: b in blocks ==> b.Block?
    requires c0 <= c1 <= c && |c0| < |c1| && c1[|c0|] == FuncHeader("b_" + blocks[i].name) + "\n"
    requires Subsequence(BlockHeaders(blocks[i + 1..]), c[|c1|..])
    ensures Subsequence(BlockHeaders(blocks[i..]), c[|c0|..])
  {
    assert blocks[i..][1..] == blocks[i + 1..] && blocks[i..][0] == blocks[i];
    var d := c[|c0|..];
    assert d[|c1| - |c0|..] == c[|c1|..];
    SubsequenceCons(FuncHeader("b_" + blocks[i].name) + "\n", BlockHeaders(blocks[i + 1..]), d, 0, |c1| - |c0|);
    assert d[0..] == d;
  }

  /**
   * The `b_<name>` function of one block.  As written, `super` is bound in the root frame
   * itself, after the child frame for the body was pushed; the child sees it through its
   * parent, so binding first and pushing after gives the same chain.  The step's frame is
   * the root frame.
   */
  function GenBlockFunction(n: Node, b: Node, rf: Frame, s: State): (r: Step)
    requires b.Block? && b < n
    ensures Grows(s, r.st)
    ensures r.frame == Some(rf.Set("super", "l_super"))
    ensures r.status.Done? ==> r.st.buffer == None
    ensures |s.code| < |r.st.code| && r.st.code[|s.code|] == FuncHeader("b_" + b.name) + "\n"
    decreases n, 0, 0
  {
    var s1 := s.FuncBegin("b_" + b.name)
               .EmitLine("var l_super = context.getSuper(env, " + "\"" + b.name + "\", " + "b_" + b.name + ", " + "runtime);");
    var outer := rf.Set("super", "l_super");
    var r := Gen(b.body, Some(outer.Push()), s1);
    if r.status.Failed? then Step(r.status, Some(outer), r.st)
    else Step(Done, Some(outer), r.st.FuncEnd(false))
  }

  /** The entry-point table lines of `compileRoot`, from block `i` on. */
  function BlockTableFrom(blocks: seq<Node>, i: nat, s: State): (t: State)
    requires i <= |blocks|
    requires forall b :: b in blocks ==> b.Block?
    ensures t.lastId == s.lastId && t.buffer == s.buffer && t.isChild == s.isChild
    ensures t.code == s.code + TableLines(blocks[i..])
    decreases |blocks| - i
  {
    if i == |blocks| then
      assert blocks[i..] == [];
      s
    else
      assert blocks[i] in blocks;
      var line := TableEntry(blocks[i].name) + "\n";
      var t := BlockTableFrom(blocks, i + 1, s.Emit(line));
      assert blocks[i..][1..] == blocks[i + 1..];
      assert TableLines(blocks[i..]) == [line] + TableLines(blocks[i + 1..]);
      assert t.code == s.code + [line] + TableLines(blocks[i + 1..]);
      t
  }

  /** The table entry of each block, in order. */
  function TableLines(blocks: seq<Node>): (r: seq<string>)
    requires forall b :: b in blocks ==> b.Block?
    ensures |r| == |blocks|
  {
    if blocks == [] then []
    else [TableEntry(blocks[0].name) + "\n"] + TableLines(blocks[1..])
  }

  /** Line `j` of the table is the entry of block `j`. */
  lemma {:induction false} TableLineOfBlock(blocks: seq<Node>)
    requires forall b :: b in blocks ==> b.Block?
    ensures forall j :: 0 <= j < |blocks| ==> TableLines(blocks)[j] == TableEntry(blocks[j].name) + "\n"
  {
    if blocks != [] {
      TableLineOfBlock(blocks[1..]);
    }
  }

  /** The entry of a block in the table `compileRoot` returns: its name mapped to its function. */
  function TableEntry(name: string): (r: string)
    ensures "b_" + name <= r
  {
    "b_" + name + ": " + "b_" + name + ","
  }
}
