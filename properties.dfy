/**
 * What the compiler guarantees about the code it emits, stated over the specification
 * functions the `Compiler` methods are proved against.
 */
module CompilerProperties {
  import opened Wrappers
  import opened Frames
  import opened Text
  import opened Ast
  import opened CodeGen
  import opened TemplateCompiler

  // ---- Temporaries ------------------------------------------------------------------------

  /**
   * `tmpid` never hands out a name twice: whatever node is compiled in between, the next
   * temporary differs from every temporary drawn before.
   */
  lemma TemporariesAreFresh(n: Node, f: Option<Frame>, s: State, k: nat)
    requires 1 <= k <= s.lastId
    ensures TmpName(Gen(n, f, s).st.lastId + 1) != TmpName(k)
  {
    TmpNameInjective(Gen(n, f, s).st.lastId + 1, k);
  }

  // ---- Expression position ----------------------------------------------------------------

  /**
   * The kinds `_compileExpression` accepts, spelled out: literals, symbols, groups, arrays,
   * dicts, calls, filters, lookups, comparisons, `and`, `or` and `not`.  Arithmetic, unary
   * minus and plus, dict entries and every statement kind are refused.
   */
  lemma ExpressionKindsExactly(n: Node)
    ensures IsExpressionKind(n) <==>
      n.Literal? || n.Symbol? || n.Group? || n.Array? || n.Dict? || n.FunCall? || n.Filter? ||
      n.LookupVal? || n.Compare? || (n.Binary? && (n.op == And || n.op == Or)) ||
      (n.Unary? && n.uop == Not)
  {
    if IsExpressionKind(n) {
      var k :| k in ExpressionKinds && InstanceOf(n, k);
      if n.Pair? || (n.Binary? && n.op != And && n.op != Or) || (n.Unary? && n.uop != Not) {
        ValueKindsRefused(n);
      } else if IsValueSyntax(n) {
      } else if IsDefinition(n) {
        DefinitionKindsRefused(n);
      } else {
        ContentKindsRefused(n);
      }
    } else if !n.Unknown? {
      assert KindName(n) !in ExpressionKinds;
    }
  }

  /** The value kinds `_compileExpression` does not list: pairs and arithmetic. */
  lemma ValueKindsRefused(n: Node)
    requires n.Pair? || (n.Binary? && n.op != And && n.op != Or) || (n.Unary? && n.uop != Not)
    ensures KindName(n) !in ExpressionKinds
  {
  }

  /** No definition kind is listed by `_compileExpression`. */
  lemma DefinitionKindsRefused(n: Node)
    requires IsDefinition(n)
    ensures KindName(n) !in ExpressionKinds
  {
  }

  /** No control-flow or output kind is listed by `_compileExpression`. */
  lemma ContentKindsRefused(n: Node)
    requires !IsValueSyntax(n) && !IsDefinition(n) && !n.Unknown?
    ensures KindName(n) !in ExpressionKinds
  {
  }

  /** In expression position, a refused kind throws `invalid type: <kind>` before emitting anything. */
  lemma ArithmeticRefusedInExpressionPosition(n: Node, f: Option<Frame>, s: State)
    requires (n.Binary? && n.op != And && n.op != Or) || (n.Unary? && n.uop != Not)
    ensures GenExpr(n, f, s) == Step(Failed(InvalidType(KindName(n))), f, s)
  {
    ExpressionKindsExactly(n);
  }

  // ---- Symbols ----------------------------------------------------------------------------

  /**
   * A name bound at compile time compiles to the identifier it is bound to, in the frame that
   * bound it and in any frame pushed on top of it.
   */
  lemma BoundSymbolCompilesToItsBinding(fr: Frame, name: string, id: string, s: State)
    requires id != ""
    ensures Gen(Symbol(name), Some(fr.Set(name, id)), s) == Step(Done, Some(fr.Set(name, id)), s.Emit(id))
    ensures Gen(Symbol(name), Some(fr.Set(name, id).Push()), s) == Step(Done, Some(fr.Set(name, id).Push()), s.Emit(id))
  {
    LookupAfterSet(fr, name, id, name);
    LookupThroughPush(fr.Set(name, id), name);
  }

  /** A name with no compile-time binding is looked up at render time, in the context first. */
  lemma UnboundSymbolIsLookedUp(fr: Frame, name: string, s: State)
    requires name !in fr.Names()
    ensures Gen(Symbol(name), Some(fr), s) == Step(Done, Some(fr), s.Emit(FallbackLookup(name)))
  {
  }

  // ---- Literals ---------------------------------------------------------------------------

  /**
   * A string literal is emitted as a JavaScript string literal that reads back as the
   * original text, provided the text has no backslash (see `Text.BackslashNotEscaped`).
   */
  lemma StringLiteralReadsBack(v: string)
    requires '\\' !in v
    ensures var c := LitCode(Str(v));
      |c| >= 2 && c[0] == '"' && c[|c| - 1] == '"' && Unescape(c[1..|c| - 1]) == Some(v)
  {
    var c := LitCode(Str(v));
    assert c[1..|c| - 1] == EscapeAsWritten(v);
    EscapeRoundTrip(v);
  }

  // ---- Dict entries -----------------------------------------------------------------------

  /** As written, a dict entry whose key is a literal is refused, string literals included. */
  lemma LiteralDictKeyRefused(k: LitValue, v: Node, f: Option<Frame>, s: State)
    ensures Gen(Pair(Literal(k), v), f, s) == Step(Failed(BadDictKey), f, s)
  {
    assert Gen(Pair(Literal(k), v), f, s) == GenValue(Pair(Literal(k), v), f, s) == GenPair(Pair(Literal(k), v), f, s);
  }

  // ---- Set --------------------------------------------------------------------------------

  /** As written, the value of `set` is compiled with no frame, so a name in it throws. */
  lemma SetValueSeesNoFrame(ts: seq<string>, name: string, f: Option<Frame>, s: State)
    ensures Gen(Set(ts, Symbol(name)), f, s).status == Failed(UndefinedFrame)
  {
    var n := Set(ts, Symbol(name));
    var s1 := s.Next();
    var id := TmpName(s1.lastId);
    var s2 := s1.Emit("var " + id + " = ");
    assert IsExpressionKind(Symbol(name)) by {
      assert "Symbol" in ExpressionKinds && InstanceOf(Symbol(name), "Symbol");
    }
    assert GenExpr(Symbol(name), None, s2) == Gen(Symbol(name), None, s2) == GenValue(Symbol(name), None, s2);
    assert Gen(n, f, s) == GenStatement(n, f, s) == GenDefinition(n, f, s) == GenSet(n, f, s);
  }

  /** The lines `compileSet` publishes its targets with, target by target. */
  function SetLines(ts: seq<string>, id: string): seq<string>
  {
    if ts == [] then []
    else
      [SetVariableLine(ts[0], id) + "\n"] +
      (if !StartsWithUnderscore(ts[0]) then [AddExportLine(ts[0]) + "\n"] else []) +
      SetLines(ts[1..], id)
  }

  /** The target loop of `compileSet` appends exactly the publishing lines of the remaining targets. */
  lemma {:induction false} SetTargetsAppendLines(ts: seq<string>, i: nat, id: string, s: State)
    requires i <= |ts|
    ensures SetTargetsFrom(ts, i, id, s).code == s.code + SetLines(ts[i..], id)
    decreases |ts| - i
  {
    if i == |ts| {
      assert ts[i..] == [];
    } else {
      SetTargetsAppendLines(ts, i + 1, id, SetTarget(s, ts[i], id));
      assert ts[i..][1..] == ts[i + 1..];
    }
  }

  /** Line `x` publishes target `t`: its `setVariable` line, or its `addExport` line if it has one. */
  predicate PublishesTarget(x: string, t: string, id: string)
  {
    x == SetVariableLine(t, id) + "\n" || (x == AddExportLine(t) + "\n" && !StartsWithUnderscore(t))
  }

  /**
   * Every target is published with `setVariable`, child template or not, and exported
   * exactly when its name does not start with `_`.
   */
  lemma {:induction false} SetLinesPublish(ts: seq<string>, id: string)
    ensures forall t :: t in ts ==> SetVariableLine(t, id) + "\n" in SetLines(ts, id)
    ensures forall t :: t in ts && !StartsWithUnderscore(t) ==> AddExportLine(t) + "\n" in SetLines(ts, id)
  {
    if ts != [] {
      SetLinesPublish(ts[1..], id);
      forall t | t in ts
        ensures SetVariableLine(t, id) + "\n" in SetLines(ts, id)
        ensures !StartsWithUnderscore(t) ==> AddExportLine(t) + "\n" in SetLines(ts, id)
      {
        if t != ts[0] {
          assert t in ts[1..];
        }
      }
    }
  }

  /** `compileSet` adds no line other than the publishing lines of its targets. */
  lemma {:induction false} SetLinesOnlyPublish(ts: seq<string>, id: string)
    ensures forall x :: x in SetLines(ts, id) ==> exists t :: t in ts && PublishesTarget(x, t, id)
  {
    if ts != [] {
      SetLinesOnlyPublish(ts[1..], id);
      forall x | x in SetLines(ts, id)
        ensures exists t :: t in ts && PublishesTarget(x, t, id)
      {
        if x in SetLines(ts[1..], id) {
          var t :| t in ts[1..] && PublishesTarget(x, t, id);
          assert t in ts;
        } else {
          assert ts[0] in ts;
        }
      }
    }
  }

  // ---- Calls ------------------------------------------------------------------------------

  /** A literal compiles to its code, in any frame. */
  lemma LiteralCompiles(v: LitValue, f: Option<Frame>, s: State)
    ensures Gen(Literal(v), f, s) == Step(Done, f, s.Emit(LitCode(v)))
  {
    assert Gen(Literal(v), f, s) == GenValue(Literal(v), f, s);
  }

  /** The codes `compileLiteral` emits for a list of literal or template-data nodes, in order. */
  function LitCodes(args: seq<Node>): seq<string>
    requires forall a :: a in args ==> a.Literal? || a.TemplateData?
  {
    seq(|args|, j requires 0 <= j < |args| => LitCode(args[j].lit))
  }

  /** One more argument adds the separator (except before the first) and its code. */
  lemma SeparatedStep(cs: seq<string>, i: nat, sep: string)
    requires i < |cs|
    ensures Separated(cs[..i + 1], sep) == Separated(cs[..i], sep) + (if i != 0 then [sep] else []) + [cs[i]]
  {
    assert cs[..i + 1][..i] == cs[..i];
    assert cs[..i + 1][i] == cs[i];
  }

  /** One iteration of `_emitCallArgs` on a literal argument: the separator, then its code. */
  lemma CallArgLiteral(n: Node, args: seq<Node>, i: nat, f: Option<Frame>, s: State)
    requires i < |args|
    requires forall a :: a in args ==> a < n && a.Literal?
    ensures GenCallArg(n, args, i, f, s) ==
      Step(Done, f, s.(code := s.code + (if i != 0 then [", "] else []) + [LitCode(args[i].lit)]))
  {
    assert args[i] in args;
    var s1 := if i != 0 then s.Emit(", ") else s;
    LiteralCompiles(args[i].lit, f, s1);
  }

  /** The code after argument `i` is the separated codes of the arguments up to `i`. */
  lemma SeparatedCodesStep(args: seq<Node>, i: nat, base: seq<string>, code: seq<string>)
    requires i < |args|
    requires forall a :: a in args ==> a.Literal?
    requires code == base + Separated(LitCodes(args)[..i], ", ")
    ensures code + (if i != 0 then [", "] else []) + [LitCode(args[i].lit)] == base + Separated(LitCodes(args)[..i + 1], ", ")
  {
    SeparatedStep(LitCodes(args), i, ", ");
  }

  /** A literal argument moves the loop of `_emitCallArgs` on by one separated code. */
  lemma CallArgsStep(n: Node, args: seq<Node>, i: nat, f: Option<Frame>, s: State, base: seq<string>)
    requires i < |args|
    requires forall a :: a in args ==> a < n && a.Literal?
    requires s.code == base + Separated(LitCodes(args)[..i], ", ")
    ensures GenCallArgsFrom(n, args, i, f, s) ==
      GenCallArgsFrom(n, args, i + 1, f, s.(code := base + Separated(LitCodes(args)[..i + 1], ", ")))
  {
    var t := s.(code := s.code + (if i != 0 then [", "] else []) + [LitCode(args[i].lit)]);
    CallArgLiteral(n, args, i, f, s);
    CallArgsFromUnfold(n, args, i, f, s);
    SeparatedCodesStep(args, i, base, s.code);
    assert t == s.(code := base + Separated(LitCodes(args)[..i + 1], ", "));
  }

  /** The loop of `_emitCallArgs` ends after the last argument. */
  lemma CallArgsEnd(n: Node, args: seq<Node>, f: Option<Frame>, s: State, base: seq<string>)
    requires forall a :: a in args ==> a < n && a.Literal?
    requires s.code == base + Separated(LitCodes(args)[..|args|], ", ")
    ensures GenCallArgsFrom(n, args, |args|, f, s) == Step(Done, f, s.(code := base + Separated(LitCodes(args), ", ")))
  {
    assert LitCodes(args)[..|args|] == LitCodes(args);
  }

  /** The loop of `_emitCallArgs` over literal arguments, from argument `i` on. */
  lemma {:induction false} CallArgsFromLiterals(n: Node, args: seq<Node>, i: nat, f: Option<Frame>, s: State, base: seq<string>)
    requires i <= |args|
    requires forall a :: a in args ==> a < n && a.Literal?
    requires s.code == base + Separated(LitCodes(args)[..i], ", ")
    ensures GenCallArgsFrom(n, args, i, f, s) == Step(Done, f, s.(code := base + Separated(LitCodes(args), ", ")))
    decreases |args| - i
  {
    if i == |args| {
      CallArgsEnd(n, args, f, s, base);
    } else {
      CallArgsStep(n, args, i, f, s, base);
      CallArgsFromLiterals(n, args, i + 1, f, s.(code := base + Separated(LitCodes(args)[..i + 1], ", ")), base);
    }
  }

  /**
   * `_emitCallArgs` writes its literal arguments between the brackets separated by `, `, so
   * the joined code reads `open`, `args.join(", ")`, `close` (see `Text.Separated`).
   */
  lemma PositionalArgumentsAreSeparated(n: Node, args: seq<Node>, open: string, close: string, f: Option<Frame>, s: State)
    requires forall a :: a in args ==> a < n && a.Literal?
    ensures GenCallArgs(n, args, open, close, f, s) ==
      Step(Done, f, s.(code := s.code + [open] + Separated(LitCodes(args), ", ") + [close]))
  {
    var s1 := s.Emit(open);
    assert LitCodes(args)[..0] == [];
    CallArgsFromLiterals(n, args, 0, f, s1, s1.code);
  }

  /** The fragments `_emitCallKwargs` writes for literal values: key, `: `, value, entry after entry. */
  function KwargFragments(kw: seq<Arg>): (r: seq<string>)
    requires forall a :: a in kw ==> a.key.Some? && a.value.Literal?
    ensures |r| == 3 * |kw|
  {
    if kw == [] then []
    else
      var a := kw[|kw| - 1];
      KwargFragments(kw[..|kw| - 1]) + [JoinText(a.key.value), ": ", LitCode(a.value.lit)]
  }

  /** One iteration of `_emitCallKwargs` on a literal value: the key, `: `, then the value's code. */
  lemma KwargLiteral(n: Node, kw: seq<Arg>, i: nat, f: Option<Frame>, s: State)
    requires i < |kw|
    requires forall a :: a in kw ==> a.key.Some? && a.value < n && a.value.Literal?
    ensures GenKwarg(n, kw, i, f, s) ==
      Step(Done, f, s.(code := s.code + [JoinText(kw[i].key.value), ": ", LitCode(kw[i].value.lit)]))
  {
    assert kw[i] in kw;
    LiteralCompiles(kw[i].value.lit, f, s.Emit(JoinText(kw[i].key.value)).Emit(": "));
  }

  /** The fragments of the entries up to `i + 1` are those up to `i` and entry `i`'s. */
  lemma KwargFragmentsStep(kw: seq<Arg>, i: nat)
    requires i < |kw|
    requires forall a :: a in kw ==> a.key.Some? && a.value.Literal?
    ensures KwargFragments(kw[..i + 1]) == KwargFragments(kw[..i]) + [JoinText(kw[i].key.value), ": ", LitCode(kw[i].value.lit)]
  {
    assert kw[..i + 1][..i] == kw[..i];
  }

  /** A literal value moves the loop of `_emitCallKwargs` on by one entry. */
  lemma KwargsStep(n: Node, kw: seq<Arg>, i: nat, f: Option<Frame>, s: State, base: seq<string>)
    requires i < |kw|
    requires forall a :: a in kw ==> a.key.Some? && a.value < n && a.value.Literal?
    requires s.code == base + KwargFragments(kw[..i])
    ensures GenKwargsFrom(n, kw, i, f, s) == GenKwargsFrom(n, kw, i + 1, f, s.(code := base + KwargFragments(kw[..i + 1])))
  {
    var t := s.(code := s.code + [JoinText(kw[i].key.value), ": ", LitCode(kw[i].value.lit)]);
    KwargLiteral(n, kw, i, f, s);
    KwargsFromUnfold(n, kw, i, f, s);
    KwargFragmentsStep(kw, i);
    assert t == s.(code := base + KwargFragments(kw[..i + 1]));
  }

  /** The loop of `_emitCallKwargs` over literal values, from entry `i` on. */
  lemma {:induction false} KwargsFromLiterals(n: Node, kw: seq<Arg>, i: nat, f: Option<Frame>, s: State, base: seq<string>)
    requires i <= |kw|
    requires forall a :: a in kw ==> a.key.Some? && a.value < n && a.value.Literal?
    requires s.code == base + KwargFragments(kw[..i])
    ensures GenKwargsFrom(n, kw, i, f, s) == Step(Done, f, s.(code := base + KwargFragments(kw)))
    decreases |kw| - i
  {
    if i == |kw| {
      assert kw[..i] == kw;
    } else {
      KwargsStep(n, kw, i, f, s, base);
      KwargsFromLiterals(n, kw, i + 1, f, s.(code := base + KwargFragments(kw[..i + 1])), base);
    }
  }

  /**
   * As written, keyword arguments are not separated at all: `a=1, b=2` becomes the object
   * text `{a: 1b: 2}`.  A key node without a `value` contributes nothing.
   */
  lemma KeywordArgumentsAreNotSeparated(n: Node, kw: seq<Arg>, f: Option<Frame>, s: State)
    requires forall a :: a in kw ==> a.key.Some? && a.value < n && a.value.Literal?
    ensures GenKwargs(n, kw, f, s) == Step(Done, f, s.(code := s.code + ["{"] + KwargFragments(kw) + ["}"]))
  {
    var s1 := s.Emit("{");
    assert kw[..0] == [];
    KwargsFromLiterals(n, kw, 0, f, s1, s1.code);
  }

  // ---- Filters ----------------------------------------------------------------------------

  /** A filter whose name is not a symbol throws `invalid type` before emitting anything. */
  lemma FilterNeedsSymbol(n: Node, f: Option<Frame>, s: State)
    requires n.Filter? && !n.callee.Symbol?
    ensures GenFilter(n, f, s) == Step(Failed(InvalidType(KindName(n.callee))), f, s)
  {
  }

  /**
   * A filter named by a symbol is fetched by name and called with its positional arguments
   * only, between parentheses.
   */
  lemma FilterCompiles(n: Node, f: Option<Frame>, s: State)
    requires n.Filter? && n.callee.Symbol?
    requires forall v :: v in Positional(n.args) ==> v.Literal?
    ensures GenFilter(n, f, s) ==
      Step(Done, f, s.(code := s.code + ["env.getFilter(\"" + n.callee.name + "\")", "("] +
                               Separated(LitCodes(Positional(n.args)), ", ") + [")"]))
  {
    ArgsBelow(n);
    var s1 := s.Emit("env.getFilter(\"" + n.callee.name + "\")");
    FilterUnfold(n, f, s);
    PositionalArgumentsAreSeparated(n, Positional(n.args), "(", ")", f, s1);
  }

  /** `compileFilter` on a symbol: the name, then the positional argument list. */
  lemma FilterUnfold(n: Node, f: Option<Frame>, s: State)
    requires n.Filter? && n.callee.Symbol?
    ensures forall v :: v in Positional(n.args) ==> v < n
    ensures GenFilter(n, f, s) == GenCallArgs(n, Positional(n.args), "(", ")", f, s.Emit("env.getFilter(\"" + n.callee.name + "\")"))
  {
    ArgsBelow(n);
  }

  /** The argument loop depends on the arguments only, not on the node they were taken from. */
  lemma {:induction false} CallArgsIgnoreNode(n: Node, m: Node, args: seq<Node>, i: nat, f: Option<Frame>, s: State)
    requires i <= |args|
    requires forall a :: a in args ==> a < n && a < m
    ensures GenCallArgsFrom(n, args, i, f, s) == GenCallArgsFrom(m, args, i, f, s)
    decreases |args| - i
  {
    if i < |args| {
      var r := GenCallArg(n, args, i, f, s);
      assert r == GenCallArg(m, args, i, f, s);
      if r.status.Done? {
        CallArgsIgnoreNode(n, m, args, i + 1, r.frame, r.st);
      }
    }
  }

  /** A keyword argument of a filter is never compiled: adding one changes nothing. */
  lemma FilterIgnoresKeywordArgument(c: Node, args: seq<Arg>, k: Node, v: Node, f: Option<Frame>, s: State)
    ensures GenFilter(Filter(c, args + [Arg(Some(k), v)]), f, s) == GenFilter(Filter(c, args), f, s)
  {
    var n, m := Filter(c, args + [Arg(Some(k), v)]), Filter(c, args);
    PositionalAppend(args, [Arg(Some(k), v)]);
    assert Positional([Arg(Some(k), v)]) == [];
    assert Positional(n.args) == Positional(m.args);
    if c.Symbol? {
      ArgsBelow(n);
      ArgsBelow(m);
      var pos := Positional(m.args);
      var s1 := s.Emit("env.getFilter(\"" + c.name + "\")").Emit("(");
      CallArgsIgnoreNode(n, m, pos, 0, f, s1);
    }
  }

  /** So even an `extends` given as a filter's keyword argument goes unnoticed in a child template. */
  lemma ExtendsInFilterKeywordIsSkipped(name: string, t: Node, fr: Frame, s: State)
    requires s.isChild
    ensures Gen(Filter(Symbol(name), [Arg(Some(Symbol("k")), Extends(t))]), Some(fr), s).status == Done
  {
    var n := Filter(Symbol(name), [Arg(Some(Symbol("k")), Extends(t))]);
    assert Gen(n, Some(fr), s) == GenValue(n, Some(fr), s) == GenFilter(n, Some(fr), s);
    FilterIgnoresKeywordArgument(Symbol(name), [], Symbol("k"), Extends(t), Some(fr), s);
    assert [] + [Arg(Some(Symbol("k")), Extends(t))] == n.args;
    assert Positional([]) == [];
    FilterCompiles(Filter(Symbol(name), []), Some(fr), s);
  }

  // ---- For --------------------------------------------------------------------------------

  /** Whatever happens, `compileFor` hands its caller's frame back untouched. */
  lemma ForLeavesCallerFrame(n: Node, f: Option<Frame>, s: State)
    requires n.For?
    ensures GenFor(n, f, s).frame == f
  {
  }

  /**
   * A single loop variable is bound, in a frame pushed on the caller's, to the last
   * temporary drawn; the body is compiled in that frame.
   */
  lemma LoopVariableBound(n: Node, fr: Frame, s: State)
    requires n.For? && !n.loopVar.Array?
    ensures var h := GenForHead(n, Some(fr), s);
      h.status.Done? ==>
        h.frame.value.Parent() == Some(fr) &&
        h.frame.value.Lookup(ValueText(n.loopVar)) == Some(TmpName(h.st.lastId))
  {
    var h := GenForHead(n, Some(fr), s);
    if h.status.Done? {
      var s2 := s.Next().Next();
      var arr := TmpName(s2.lastId);
      var r := GenExpr(n.arr, Some(fr.Push()), s2.EmitLine("frame = frame.push();").Emit("var " + arr + " = "));
      var inner := r.frame.value;
      var s3 := r.st.EmitLine(";").Next();
      LookupAfterSet(inner, ValueText(n.loopVar), TmpName(s3.lastId), ValueText(n.loopVar));
    }
  }

  /**
   * A key/value loop binds the value name to the last temporary drawn and the key name to
   * the one before; a target with fewer than two names makes the loop fail.
   */
  lemma KeyValueLoopBound(n: Node, fr: Frame, s: State)
    requires n.For? && n.loopVar.Array?
    ensures var h := GenForHead(n, Some(fr), s);
      h.status.Done? ==>
        |n.loopVar.children| >= 2 &&
        h.frame.value.Parent() == Some(fr) &&
        h.frame.value.Lookup(ValueText(n.loopVar.children[1])) == Some(TmpName(h.st.lastId)) &&
        (ValueText(n.loopVar.children[0]) != ValueText(n.loopVar.children[1]) ==>
           h.frame.value.Lookup(ValueText(n.loopVar.children[0])) == Some(TmpName(h.st.lastId - 1)))
  {
    var h := GenForHead(n, Some(fr), s);
    if h.status.Done? {
      var s2 := s.Next().Next();
      var arr := TmpName(s2.lastId);
      var r := GenExpr(n.arr, Some(fr.Push()), s2.EmitLine("frame = frame.push();").Emit("var " + arr + " = "));
      var inner := r.frame.value;
      var s4 := r.st.EmitLine(";").Next();
      var s5 := s4.Next();
      var key, val := ValueText(n.loopVar.children[0]), ValueText(n.loopVar.children[1]);
      var k, v := TmpName(s4.lastId), TmpName(s5.lastId);
      LookupAfterSet(inner.Set(key, k), val, v, key);
      LookupAfterSet(inner, key, k, key);
    }
  }

  /**
   * The loop header opens with `var <i> = -1;` (the key/value form) exactly when the target
   * is an array of names; a single name gets the indexed `for` form.
   */
  lemma KeyValueHeaderIffArray(target: Node, inner: Frame, i: string, arr: string, s: State)
    ensures var r := LoopTargets(target, inner, i, arr, s);
      r.status.Done? ==> |s.code| < |r.st.code| && (r.st.code[|s.code|] == "var " + i + " = -1;" + "\n" <==> target.Array?)
  {
    var r := LoopTargets(target, inner, i, arr, s);
    var kv := "var " + i + " = -1;" + "\n";
    assert kv[0] == 'v';
    if r.status.Done? {
      if target.Array? {
        assert r.st.code[|s.code|] == kv;
      } else {
        var s1 := s.Next();
        var line := "for(var " + i + "=0; " + i + " < " + arr + ".length; " + i + "++) {" + "\n";
        assert r.st.code[|s.code|] == line;
        assert line[0] == 'f';
      }
    }
  }

  // ---- Macros -----------------------------------------------------------------------------

  /** In the macro's frame every parameter resolves to its `l_` identifier. */
  lemma {:induction false} ParamsBoundInMacroFrame(fr: Frame, ps: seq<Param>, p: Param)
    requires p in ps
    ensures BindParams(fr, ps).Lookup(p.name) == Some(LocalName(p.name))
  {
    var last := ps[|ps| - 1];
    var init := ps[..|ps| - 1];
    assert ps == init + [last];
    LookupAfterSet(BindParams(fr, init), last.name, LocalName(last.name), p.name);
    if p.name != last.name {
      assert p in init;
      ParamsBoundInMacroFrame(fr, init, p);
    }
  }

  /** A compiled macro is bound in the caller's frame to `l_<name>`. */
  lemma MacroBinding(n: Node, fr: Frame, s: State)
    requires n.Macro?
    ensures var r := GenMacro(n, Some(fr), s);
      r.status.Done? ==>
        r.frame == Some(fr.Set(n.name, LocalName(n.name))) && r.frame.value.Lookup(n.name) == Some(LocalName(n.name))
  {
    LookupAfterSet(fr, n.name, LocalName(n.name), n.name);
  }

  /**
   * Outside a child template a macro is published with the same lines as a `set` of its name
   * to `l_<name>` (in the opposite order); in a child template it is not published at all.
   */
  lemma MacroPublishedLikeSet(name: string, t: State)
    ensures !t.isChild ==>
      multiset(Publish(name, t).code[|t.code|..]) == multiset(SetLines([name], LocalName(name)))
    ensures t.isChild ==> Publish(name, t) == t
  {
    var sv, ae := SetVariableLine(name, LocalName(name)) + "\n", AddExportLine(name) + "\n";
    assert [name][1..] == [];
    if !t.isChild {
      var added := Publish(name, t).code[|t.code|..];
      if StartsWithUnderscore(name) {
        assert added == [sv];
        assert SetLines([name], LocalName(name)) == [sv];
      } else {
        assert added == [ae, sv];
        assert SetLines([name], LocalName(name)) == [sv, ae];
      }
    }
  }

  // ---- Imports ----------------------------------------------------------------------------

  /** A line that does not start like a `setVariable` call is not one. */
  lemma NotSetVariable(x: string)
    requires x != [] && x[0] != 'c'
    ensures !CallsSetVariable(x)
  {
    var head := "context.setVariable(\"";
    assert head[0] == 'c';
  }

  /**
   * `compileImport`: on success the binding resolves to its `l_` local in the frame, and the
   * last line emitted publishes it with `setVariable` exactly when not compiling as a child.
   */
  lemma ImportPublishesIffNotChild(n: Node, f: Option<Frame>, s: State)
    requires n.Import?
    ensures var r := GenImport(n, f, s); var b := n.binding;
      r.status.Done? ==>
        r.frame.value.Lookup(b) == Some(LocalName(b)) &&
        |s.code| < |r.st.code| &&
        (CallsSetVariable(r.st.code[|r.st.code| - 1]) <==> !r.st.isChild) &&
        (!r.st.isChild ==> r.st.code[|r.st.code| - 1] == SetVariableLine(b, LocalName(b)) + "\n")
  {
    var r := GenImport(n, f, s);
    if r.status.Done? {
      var b := n.binding;
      var t := Gen(n.template, f, s.Emit("var " + LocalName(b) + " = env.getTemplate("));
      var line := ").getModule();" + "\n";
      var s1 := t.st.Emit(line);
      assert r == Step(Done, Some(t.frame.value.Set(b, LocalName(b))),
                       if !s1.isChild then s1.EmitLine(SetVariableLine(b, LocalName(b))) else s1);
      LookupAfterSet(t.frame.value, b, LocalName(b), b);
      assert line[0] == ')';
      NotSetVariable(line);
    }
  }

  /** `compileImport` once its template expression has been compiled to `t`. */
  lemma ImportAfterTemplate(n: Node, f: Option<Frame>, s: State, t: Step)
    requires n.Import? && t == Gen(n.template, f, s.Emit("var " + LocalName(n.binding) + " = env.getTemplate("))
    ensures GenImport(n, f, s) ==
      if t.status.Failed? then t
      else
        var s1 := t.st.EmitLine(").getModule();");
        if t.frame.None? then Step(Failed(UndefinedFrame), t.frame, s1)
        else
          Step(Done, Some(t.frame.value.Set(n.binding, LocalName(n.binding))),
            if !s1.isChild then s1.EmitLine(SetVariableLine(n.binding, LocalName(n.binding))) else s1)
  {
  }

  /** An import of a literal template name, in full: the frame gains exactly the binding. */
  lemma ImportOfLiteral(v: LitValue, b: string, fr: Frame, s: State)
    ensures GenImport(Import(Literal(v), b), Some(fr), s) ==
      Step(Done, Some(fr.Set(b, LocalName(b))),
           s.(code := s.code + ["var " + LocalName(b) + " = env.getTemplate(", LitCode(v), ").getModule();" + "\n"] +
                      (if !s.isChild then [SetVariableLine(b, LocalName(b)) + "\n"] else [])))
  {
    var s1 := s.Emit("var " + LocalName(b) + " = env.getTemplate(");
    LiteralCompiles(v, Some(fr), s1);
    ImportAfterTemplate(Import(Literal(v), b), Some(fr), s, Step(Done, Some(fr), s1.Emit(LitCode(v))));
    ImportLiteralLines(v, b, s);
  }

  /** The lines of an import of a literal template name, gathered. */
  lemma ImportLiteralLines(v: LitValue, b: string, s: State)
    ensures var s3 := s.Emit("var " + LocalName(b) + " = env.getTemplate(").Emit(LitCode(v)).EmitLine(").getModule();");
      (if !s3.isChild then s3.EmitLine(SetVariableLine(b, LocalName(b))) else s3) ==
      s.(code := s.code + ["var " + LocalName(b) + " = env.getTemplate(", LitCode(v), ").getModule();" + "\n"] +
                 (if !s.isChild then [SetVariableLine(b, LocalName(b)) + "\n"] else []))
  {
  }

  /** The five lines of `compileFromImport` that copy an exported name into a local. */
  function GuardedLines(name: string, alias: string): seq<string>
  {
    ["if(includedTemplate.hasOwnProperty(\"" + name + "\")) {" + "\n",
     "var " + LocalName(alias) + " = includedTemplate." + name + ";" + "\n",
     "} else {" + "\n",
     "// Add runtime error here" + "\n",
     "}" + "\n"]
  }

  lemma GuardedImportLines(s: State, name: string, alias: string)
    ensures GuardedImport(s, name, alias) == s.(code := s.code + GuardedLines(name, alias))
  {
  }

  /** None of the copying lines publishes anything. */
  lemma GuardedLinesSilent(name: string, alias: string)
    ensures forall x :: x in GuardedLines(name, alias) ==> !CallsSetVariable(x)
  {
    var g := GuardedLines(name, alias);
    assert g[0][0] == 'i' && g[1][0] == 'v' && g[2][0] == '}' && g[3][0] == '/' && g[4][0] == '}';
    forall x | x in g
      ensures !CallsSetVariable(x)
    {
      NotSetVariable(x);
    }
  }

  /** The lines one requested name adds: the copy, then its `setVariable` line unless in a child. */
  function ItemLines(item: ImportName, isChild: bool): seq<string>
  {
    GuardedLines(item.name, item.Bound()) +
    (if !isChild then [SetVariableLine(item.Bound(), LocalName(item.Bound())) + "\n"] else [])
  }

  /** The lines the loop of `compileFromImport` adds for `names`, in order. */
  function ImportLines(names: seq<ImportName>, isChild: bool): seq<string>
  {
    if names == [] then [] else ItemLines(names[0], isChild) + ImportLines(names[1..], isChild)
  }

  /** The names `names` are bound to, in order. */
  function BoundNames(names: seq<ImportName>): (r: seq<string>)
    ensures |r| == |names|
  {
    if names == [] then [] else [names[0].Bound()] + BoundNames(names[1..])
  }

  /** The frame after the loop of `compileFromImport` has bound `names` in `fr`, in order. */
  function BindAll(fr: Frame, names: seq<ImportName>): Frame
    decreases names
  {
    if names == [] then fr
    else BindAll(fr.Set(names[0].Bound(), LocalName(names[0].Bound())), names[1..])
  }

  /**
   * Each requested name resolves to its `l_` local afterwards; any other name resolves as
   * before; the parent chain is untouched.
   */
  lemma {:induction false} BindAllBinds(fr: Frame, names: seq<ImportName>, x: string)
    ensures x in BoundNames(names) ==> BindAll(fr, names).Lookup(x) == Some(LocalName(x))
    ensures x !in BoundNames(names) ==> BindAll(fr, names).Lookup(x) == fr.Lookup(x)
    ensures BindAll(fr, names).Parent() == fr.Parent()
    decreases names
  {
    if names != [] {
      var b := names[0].Bound();
      BindAllBinds(fr.Set(b, LocalName(b)), names[1..], x);
      LookupAfterSet(fr, b, LocalName(b), x);
    }
  }

  /** In a child template no line of the loop publishes; otherwise every bound name is published. */
  lemma {:induction false} ImportLinesPublish(names: seq<ImportName>, isChild: bool)
    ensures isChild ==> forall x :: x in ImportLines(names, isChild) ==> !CallsSetVariable(x)
    ensures !isChild ==> forall x :: x in BoundNames(names) ==> SetVariableLine(x, LocalName(x)) + "\n" in ImportLines(names, isChild)
  {
    if names != [] {
      ImportLinesPublish(names[1..], isChild);
      GuardedLinesSilent(names[0].name, names[0].Bound());
    }
  }

  /** One requested name with a frame present, in full. */
  lemma ImportOneLines(item: ImportName, fr: Frame, s: State)
    ensures ImportOne(item, Some(fr), s) ==
      Step(Done, Some(fr.Set(item.Bound(), LocalName(item.Bound()))), s.(code := s.code + ItemLines(item, s.isChild)))
  {
    GuardedImportLines(s, item.name, item.Bound());
  }

  /**
   * One requested name: with a frame it is bound to its `l_` local, and the last line emitted
   * publishes it exactly when not compiling as a child; without a frame it throws.
   */
  lemma ImportOneBinds(item: ImportName, f: Option<Frame>, s: State)
    ensures var r := ImportOne(item, f, s); var b := item.Bound();
      (r.status.Done? <==> f.Some?) && r.st.isChild == s.isChild && |s.code| < |r.st.code| &&
      (r.status.Done? ==> r.frame == Some(f.value.Set(b, LocalName(b))) && r.frame.value.Lookup(b) == Some(LocalName(b))) &&
      (CallsSetVariable(r.st.code[|r.st.code| - 1]) <==> r.status.Done? && !s.isChild) &&
      (r.status.Done? && !s.isChild ==> r.st.code[|r.st.code| - 1] == SetVariableLine(b, LocalName(b)) + "\n")
  {
    var b := item.Bound();
    GuardedImportLines(s, item.name, b);
    GuardedLinesSilent(item.name, b);
    assert GuardedLines(item.name, b)[4] in GuardedLines(item.name, b);
    if f.Some? {
      LookupAfterSet(f.value, b, LocalName(b), b);
    }
  }

  /** The loop of `compileFromImport` with a frame present, from name `i` on, in full. */
  lemma {:induction false} ImportNamesLines(names: seq<ImportName>, i: nat, fr: Frame, s: State)
    requires i <= |names|
    ensures ImportNamesFrom(names, i, Some(fr), s) ==
      Step(Done, Some(BindAll(fr, names[i..])), s.(code := s.code + ImportLines(names[i..], s.isChild)))
    decreases |names| - i
  {
    if i == |names| {
      assert names[i..] == [];
    } else {
      var b := names[i].Bound();
      ImportOneLines(names[i], fr, s);
      var s1 := s.(code := s.code + ItemLines(names[i], s.isChild));
      ImportNamesLines(names, i + 1, fr.Set(b, LocalName(b)), s1);
      assert names[i..][1..] == names[i + 1..] && names[i..][0] == names[i];
    }
  }

  /**
   * `compileFromImport`: on success every requested name (or its alias) resolves to its `l_`
   * local, and the code ends with the copying lines of all names in order, which publish each
   * name with `setVariable` exactly when not compiling as a child.
   */
  lemma FromImportBindsEveryName(n: Node, fr: Frame, s: State)
    requires n.FromImport?
    ensures var r := GenFromImport(n, Some(fr), s); var lines := ImportLines(n.names, r.st.isChild);
      r.status.Done? ==>
        (forall x :: x in BoundNames(n.names) ==> r.frame.value.Lookup(x) == Some(LocalName(x))) &&
        |lines| <= |r.st.code| && r.st.code[|r.st.code| - |lines|..] == lines &&
        (r.st.isChild ==> forall x :: x in lines ==> !CallsSetVariable(x)) &&
        (!r.st.isChild ==> forall x :: x in BoundNames(n.names) ==> SetVariableLine(x, LocalName(x)) + "\n" in lines)
  {
    var r := GenFromImport(n, Some(fr), s);
    var t := Gen(n.template, Some(fr), s.Emit("var includedTemplate = env.getTemplate("));
    if t.status.Done? {
      var s2 := t.st.EmitLine(").getModule();");
      ImportNamesLines(n.names, 0, t.frame.value, s2);
      assert n.names[0..] == n.names;
      assert r.st.isChild == s2.isChild;
      ImportLinesPublish(n.names, s2.isChild);
      forall x | x in BoundNames(n.names)
        ensures r.frame.value.Lookup(x) == Some(LocalName(x))
      {
        BindAllBinds(t.frame.value, n.names, x);
      }
    }
  }

  /** Three fragments appended one by one, then further lines. */
  lemma LinesAfter(c: seq<string>, three: seq<string>, rest: seq<string>)
    requires |three| == 3
    ensures c + [three[0]] + [three[1]] + [three[2]] + rest == c + three + rest
  {
    assert three == [three[0], three[1], three[2]];
  }

  /** `compileFromImport` once its template expression has been compiled to `t`. */
  lemma FromImportAfterTemplate(n: Node, f: Option<Frame>, s: State, t: Step)
    requires n.FromImport? && t == Gen(n.template, f, s.Emit("var includedTemplate = env.getTemplate("))
    ensures GenFromImport(n, f, s) ==
      if t.status.Failed? then t else ImportNamesFrom(n.names, 0, t.frame, t.st.EmitLine(").getModule();"))
  {
  }

  /** A `from ... import` of a literal template name, in full. */
  lemma FromImportOfLiteral(v: LitValue, names: seq<ImportName>, fr: Frame, s: State)
    ensures GenFromImport(FromImport(Literal(v), names), Some(fr), s) ==
      Step(Done, Some(BindAll(fr, names)),
           s.(code := s.code + ["var includedTemplate = env.getTemplate(", LitCode(v), ").getModule();" + "\n"] +
                      ImportLines(names, s.isChild)))
  {
    var s1 := s.Emit("var includedTemplate = env.getTemplate(");
    LiteralCompiles(v, Some(fr), s1);
    var s2 := s1.Emit(LitCode(v)).EmitLine(").getModule();");
    FromImportAfterTemplate(FromImport(Literal(v), names), Some(fr), s, Step(Done, Some(fr), s1.Emit(LitCode(v))));
    ImportNamesLines(names, 0, fr, s2);
    assert names[0..] == names;
    LinesAfter(s.code, ["var includedTemplate = env.getTemplate(", LitCode(v), ").getModule();" + "\n"], ImportLines(names, s.isChild));
  }

  // ---- Extends ----------------------------------------------------------------------------

  /** `extends` makes the template a child, and a child cannot extend again. */
  lemma ExtendsOnlyOnce(n: Node, f: Option<Frame>, s: State)
    requires n.Extends?
    ensures s.isChild ==> GenExtends(n, f, s) == Step(Failed(MultipleExtends), f, s)
    ensures GenExtends(n, f, s).status.Done? ==> GenExtends(n, f, s).st.isChild
  {
  }

  /** At the top of `compile`, an `extends` node goes to `compileExtends`. */
  lemma ExtendsDispatch(t: Node, f: Option<Frame>, s: State)
    ensures Gen(Extends(t), f, s) == GenExtends(Extends(t), f, s)
  {
    assert Gen(Extends(t), f, s) == GenStatement(Extends(t), f, s) == GenDefinition(Extends(t), f, s);
  }

  /** Once an `extends` has succeeded the template is a child, and a second `extends` throws. */
  lemma SecondExtendsFails(a: Node, b: Node, f: Option<Frame>, s: State)
    ensures var r := Gen(Extends(a), f, s);
      r.status.Done? ==> r.st.isChild && Gen(Extends(b), r.frame, r.st) == Step(Failed(MultipleExtends), r.frame, r.st)
  {
    ExtendsDispatch(a, f, s);
    ExtendsOnlyOnce(Extends(a), f, s);
    var r := Gen(Extends(a), f, s);
    if r.status.Done? {
      ExtendsDispatch(b, r.frame, r.st);
      ExtendsOnlyOnce(Extends(b), r.frame, r.st);
    }
  }

  /** One turn of `_compileChildren` (or of the aggregate loop): stop at a failure, otherwise go on. */
  lemma SeqFromUnfold(n: Node, i: nat, comma: bool, f: Option<Frame>, s: State)
    requires HasChildren(n) && i < |n.children|
    ensures var r := Gen(n.children[i], f, if comma && i > 0 then s.Emit(",") else s);
      GenSeqFrom(n, i, comma, f, s) == if r.status.Failed? then r else GenSeqFrom(n, i + 1, comma, r.frame, r.st)
  {
  }

  /** In a child template, a list of statements with an `extends` among them fails. */
  lemma {:induction false} ExtendsInChildFails(n: Node, comma: bool, i: nat, j: nat, f: Option<Frame>, s: State)
    requires HasChildren(n) && i <= j < |n.children| && n.children[j].Extends? && s.isChild
    ensures GenSeqFrom(n, i, comma, f, s).status.Failed?
    decreases j - i
  {
    SeqFromUnfold(n, i, comma, f, s);
    var s1 := if comma && i > 0 then s.Emit(",") else s;
    var r := Gen(n.children[i], f, s1);
    if i == j {
      ExtendsDispatch(n.children[j].template, f, s1);
      ExtendsOnlyOnce(n.children[j], f, s1);
    } else if r.status.Done? {
      ExtendsInChildFails(n, comma, i + 1, j, r.frame, r.st);
    }
  }

  /** Two `extends` among the statements of one list make it fail, whatever lies between them. */
  lemma {:induction false} TwoExtendsFail(n: Node, comma: bool, k: nat, i: nat, j: nat, f: Option<Frame>, s: State)
    requires HasChildren(n) && k <= i < j < |n.children| && n.children[i].Extends? && n.children[j].Extends?
    ensures GenSeqFrom(n, k, comma, f, s).status.Failed?
    decreases i - k
  {
    SeqFromUnfold(n, k, comma, f, s);
    var s1 := if comma && k > 0 then s.Emit(",") else s;
    var r := Gen(n.children[k], f, s1);
    if r.status.Done? {
      if k == i {
        ExtendsDispatch(n.children[i].template, f, s1);
        ExtendsOnlyOnce(n.children[i], f, s1);
        ExtendsInChildFails(n, comma, k + 1, j, r.frame, r.st);
      } else {
        TwoExtendsFail(n, comma, k + 1, i, j, r.frame, r.st);
      }
    }
  }

  /** A template with two top-level `extends` does not compile. */
  lemma TemplateExtendsOnce(n: Node, i: nat, j: nat, s: State)
    requires n.Root? && i < j < |n.children| && n.children[i].Extends? && n.children[j].Extends?
    ensures GenRoot(n, None, s).status.Failed?
  {
    TwoExtendsFail(n, false, 0, i, j, Some(NewFrame()), s.FuncBegin("root"));
  }

  // ---- Root -------------------------------------------------------------------------------

  /** The root node must be compiled without a frame. */
  lemma RootRefusesFrame(n: Node, fr: Frame, s: State)
    requires n.Root?
    ensures Gen(n, Some(fr), s) == Step(Failed(RootHasFrame), Some(fr), s)
  {
    assert Gen(n, Some(fr), s) == GenStatement(n, Some(fr), s) == GenDefinition(n, Some(fr), s) == GenRoot(n, Some(fr), s);
  }

  /**
   * The `root` function closes the buffer, and its last statement renders the parent
   * template exactly when the template is a child.
   */
  lemma RootDelegatesIffChild(n: Node, s: State)
    requires n.Root?
    ensures var r := GenRootFunction(n, s);
      r.status.Done? ==>
        r.st.buffer == None && |r.st.code| >= 2 && r.st.code[|r.st.code| - 1] == "}\n" &&
        (r.st.code[|r.st.code| - 2] == Delegation + "\n" <==> r.st.isChild)
  {
    var r := GenRootFunction(n, s);
    if r.status.Done? {
      var s0 := s.FuncBegin("root");
      var c := GenSeqFrom(n, 0, false, Some(NewFrame()), s0);
      assert c.st.buffer == Some("output") || c.st.buffer == None;
      if !c.st.isChild {
        var line := "return " + c.st.BufferName() + ";\n";
        assert |line| <= 15 < |Delegation + "\n"|;
      }
    }
  }

  /** The lambda bound to `super` in a block function is visible in the block's body. */
  lemma SuperVisibleInBlockBody(rf: Frame)
    ensures rf.Set("super", "l_super").Push().Lookup("super") == Some("l_super")
  {
    LookupThroughPush(rf.Set("super", "l_super"), "super");
    LookupAfterSet(rf, "super", "l_super", "super");
  }

  /** The table `compileRoot` returns lists exactly the blocks, one entry each. */
  lemma TableListsExactly(blocks: seq<Node>)
    requires forall b :: b in blocks ==> b.Block?
    ensures forall b :: b in blocks ==> TableEntry(b.name) + "\n" in TableLines(blocks)
    ensures forall x :: x in TableLines(blocks) ==> exists b :: b in blocks && x == TableEntry(b.name) + "\n"
  {
    var lines := TableLines(blocks);
    TableLineOfBlock(blocks);
    forall b | b in blocks
      ensures TableEntry(b.name) + "\n" in lines
    {
      var j :| 0 <= j < |blocks| && blocks[j] == b;
      assert lines[j] == TableEntry(b.name) + "\n";
    }
    forall x | x in lines
      ensures exists b :: b in blocks && x == TableEntry(b.name) + "\n"
    {
      var j :| 0 <= j < |lines| && lines[j] == x;
      assert blocks[j] in blocks;
    }
  }

  /** A compiled template ends with the block table: one line per block found, then `root`. */
  lemma RootEndsWithTable(n: Node, s: State)
    requires n.Root?
    ensures var r := GenRoot(n, None, s); var k := |FindBlocks(n)|;
      r.status.Done? ==>
        |r.st.code| >= k + 2 && r.st.code[|r.st.code| - 1] == "root: root\n};" + "\n" &&
        r.st.code[|r.st.code| - 2 - k] == "return {" + "\n" &&
        r.st.code[|r.st.code| - 1 - k .. |r.st.code| - 1] == TableLines(FindBlocks(n)) &&
        forall x :: x in TableLines(FindBlocks(n)) ==> x in r.st.code
  {
    var r := GenRoot(n, None, s);
    if r.status.Done? {
      var blocks := FindBlocks(n);
      var rf := GenRootFunction(n, s);
      var bl := GenBlocksFrom(n, blocks, 0, rf.frame.value, rf.st);
      var t0 := bl.st.EmitLine("return {");
      assert rf.status.Done? && bl.status.Done?;
      var t := BlockTableFrom(blocks, 0, t0);
      assert r.st == t.EmitLine("root: root\n};");
      assert blocks[0..] == blocks;
      assert t.code == t0.code + TableLines(blocks);
      assert r.st.code == t0.code + TableLines(blocks) + ["root: root\n};" + "\n"];
    }
  }

  /** Every block anywhere in the tree, nested ones included, gets an entry in the table. */
  lemma EveryBlockInTable(n: Node, s: State, b: Node)
    requires n.Root? && b.Block? && Contains(n, b)
    ensures var r := GenRoot(n, None, s);
      r.status.Done? ==> TableEntry(b.name) + "\n" in r.st.code
  {
    var r := GenRoot(n, None, s);
    if r.status.Done? {
      FindBlocksComplete(n, b);
      TableListsExactly(FindBlocks(n));
      RootEndsWithTable(n, s);
    }
  }

  /** A subsequence of a part of `c` is a subsequence of anything that extends `c`. */
  lemma SubsequenceWithin(xs: seq<string>, c: seq<string>, k: nat, d: seq<string>)
    requires k <= |c| && c <= d && Subsequence(xs, c[k..])
    ensures Subsequence(xs, d)
  {
    SubsequencePrefix(xs, c[..k], c[k..]);
    assert c[..k] + c[k..] == c;
    SubsequenceSuffix(xs, c, d[|c|..]);
    assert c + d[|c|..] == d;
  }

  /** The steps of `compileRoot` when it succeeds: the `root` function, the block functions, the table. */
  lemma RootSteps(n: Node, s: State)
    requires n.Root?
    ensures var r := GenRoot(n, None, s); var rf := GenRootFunction(n, s);
      r.status.Done? ==>
        rf.status.Done? && rf.frame.Some? &&
        var bl := GenBlocksFrom(n, FindBlocks(n), 0, rf.frame.value, rf.st);
        bl.status.Done? && r.st == BlockTableFrom(FindBlocks(n), 0, bl.st.EmitLine("return {")).EmitLine("root: root\n};")
  {
  }

  /** In a compiled template, the block functions follow in the order `findAll` returned the blocks. */
  lemma BlockFunctionsFollowRoot(n: Node, s: State)
    requires n.Root?
    ensures var r := GenRoot(n, None, s);
      r.status.Done? ==> Subsequence(BlockHeaders(FindBlocks(n)), r.st.code)
  {
    var r := GenRoot(n, None, s);
    RootSteps(n, s);
    if r.status.Done? {
      var blocks := FindBlocks(n);
      var rf := GenRootFunction(n, s);
      var bl := GenBlocksFrom(n, blocks, 0, rf.frame.value, rf.st);
      assert blocks[0..] == blocks;
      SubsequenceWithin(BlockHeaders(blocks), bl.st.code, |rf.st.code|, r.st.code);
    }
  }
}
