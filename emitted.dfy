/**
 * The exact code each expression and output handler emits when its operands are literals:
 * the text the handlers of `src/compiler.js` write, fragment by fragment, stated over the
 * specification functions of `CodeGen`.
 */
module EmittedCode {
  import opened Wrappers
  import opened Frames
  import opened Ast
  import opened CodeGen
  import opened Text
  import opened CompilerProperties

  // ---- Operands ---------------------------------------------------------------------------

  /** `compileLiteral` and `compileTemplateData` both emit the literal's code. */
  lemma AtomCompiles(a: Node, f: Option<Frame>, s: State)
    requires a.Literal? || a.TemplateData?
    ensures Gen(a, f, s) == Step(Done, f, s.Emit(LitCode(a.lit)))
  {
    if a.Literal? {
      LiteralCompiles(a.lit, f, s);
    } else {
      assert Gen(a, f, s) == GenStatement(a, f, s) == GenContent(a, f, s);
    }
  }

  /** A literal passes the kind check of `_compileExpression` and is emitted as its code. */
  lemma LiteralExpression(v: LitValue, f: Option<Frame>, s: State)
    ensures GenExpr(Literal(v), f, s) == Step(Done, f, s.Emit(LitCode(v)))
  {
    assert "Literal" in ExpressionKinds && InstanceOf(Literal(v), "Literal");
    LiteralCompiles(v, f, s);
  }

  /** The text `compileSymbol` emits for a name in a frame: its binding, or the lookup. */
  function SymbolCode(fr: Frame, name: string): (r: string)
    ensures fr.Lookup(name).Some? && fr.Lookup(name).value != "" ==> r == fr.Lookup(name).value
    ensures fr.Lookup(name).None? ==> r == FallbackLookup(name)
  {
    var v := fr.Lookup(name);
    if v.Some? && v.value != "" then v.value else FallbackLookup(name)
  }

  /** A symbol passes the kind check of `_compileExpression` and is emitted as `SymbolCode`. */
  lemma SymbolExpression(name: string, fr: Frame, s: State)
    ensures GenExpr(Symbol(name), Some(fr), s) == Step(Done, Some(fr), s.Emit(SymbolCode(fr, name)))
  {
    assert "Symbol" in ExpressionKinds && InstanceOf(Symbol(name), "Symbol");
    assert GenExpr(Symbol(name), Some(fr), s) == Gen(Symbol(name), Some(fr), s) == GenValue(Symbol(name), Some(fr), s);
  }

  /** Opening text, a run of fragments, closing text: the fragments in between, in order. */
  lemma Bracketed(s: State, open: string, xs: seq<string>, close: string)
    ensures s.Emit(open).(code := s.Emit(open).code + xs).Emit(close) == s.(code := s.code + [open] + xs + [close])
  {
    assert s.code + [open] + xs + [close] == (s.code + [open]) + xs + [close];
  }

  // ---- Children lists ---------------------------------------------------------------------

  /** What a children loop writes for the codes `cs`: separated by `,` in an aggregate, bare otherwise. */
  function ChildCodes(cs: seq<string>, comma: bool): (r: seq<string>)
    ensures comma ==> Join(r, "") == Join(cs, ",")
    ensures !comma ==> r == cs
  {
    if comma then Separated(cs, ",") else cs
  }

  /** One more child adds `,` (in an aggregate, except before the first) and its code. */
  lemma ChildCodesStep(cs: seq<string>, i: nat, comma: bool)
    requires i < |cs|
    ensures ChildCodes(cs[..i + 1], comma) == ChildCodes(cs[..i], comma) + (if comma && i > 0 then [","] else []) + [cs[i]]
  {
    if comma {
      SeparatedStep(cs, i, ",");
    } else {
      assert cs[..i + 1] == cs[..i] + [cs[i]];
    }
  }

  /** The code after child `i` is the children codes up to `i`. */
  lemma ChildCodesAfter(cs: seq<string>, i: nat, comma: bool, base: seq<string>, code: seq<string>)
    requires i < |cs|
    requires code == base + ChildCodes(cs[..i], comma)
    ensures code + (if comma && i > 0 then [","] else []) + [cs[i]] == base + ChildCodes(cs[..i + 1], comma)
  {
    ChildCodesStep(cs, i, comma);
  }

  /** One child of a children loop that is a literal or template data: the separator, its code. */
  lemma ChildAtom(n: Node, i: nat, comma: bool, f: Option<Frame>, s: State)
    requires HasChildren(n) && i < |n.children|
    requires forall a :: a in n.children ==> a.Literal? || a.TemplateData?
    ensures Gen(n.children[i], f, if comma && i > 0 then s.Emit(",") else s) ==
      Step(Done, f, s.(code := s.code + (if comma && i > 0 then [","] else []) + [LitCode(n.children[i].lit)]))
  {
    assert n.children[i] in n.children;
    AtomCompiles(n.children[i], f, if comma && i > 0 then s.Emit(",") else s);
  }

  /** A literal child moves the children loop on by its code. */
  lemma SeqStep(n: Node, i: nat, comma: bool, f: Option<Frame>, s: State, base: seq<string>)
    requires HasChildren(n) && i < |n.children|
    requires forall a :: a in n.children ==> a.Literal? || a.TemplateData?
    requires s.code == base + ChildCodes(LitCodes(n.children)[..i], comma)
    ensures GenSeqFrom(n, i, comma, f, s) ==
      GenSeqFrom(n, i + 1, comma, f, s.(code := base + ChildCodes(LitCodes(n.children)[..i + 1], comma)))
  {
    var t := s.(code := s.code + (if comma && i > 0 then [","] else []) + [LitCode(n.children[i].lit)]);
    ChildAtom(n, i, comma, f, s);
    SeqFromUnfold(n, i, comma, f, s);
    ChildCodesAfter(LitCodes(n.children), i, comma, base, s.code);
    assert t == s.(code := base + ChildCodes(LitCodes(n.children)[..i + 1], comma));
  }

  /** The children loop ends after the last child. */
  lemma SeqEnd(n: Node, comma: bool, f: Option<Frame>, s: State, base: seq<string>)
    requires HasChildren(n) && forall a :: a in n.children ==> a.Literal? || a.TemplateData?
    requires s.code == base + ChildCodes(LitCodes(n.children)[..|n.children|], comma)
    ensures GenSeqFrom(n, |n.children|, comma, f, s) == Step(Done, f, s.(code := base + ChildCodes(LitCodes(n.children), comma)))
  {
    assert LitCodes(n.children)[..|n.children|] == LitCodes(n.children);
  }

  /** The children loop over literal children, from child `i` on. */
  lemma {:induction false} SeqFromAtoms(n: Node, i: nat, comma: bool, f: Option<Frame>, s: State, base: seq<string>)
    requires HasChildren(n) && i <= |n.children|
    requires forall a :: a in n.children ==> a.Literal? || a.TemplateData?
    requires s.code == base + ChildCodes(LitCodes(n.children)[..i], comma)
    ensures GenSeqFrom(n, i, comma, f, s) == Step(Done, f, s.(code := base + ChildCodes(LitCodes(n.children), comma)))
    decreases |n.children| - i
  {
    if i == |n.children| {
      SeqEnd(n, comma, f, s, base);
    } else {
      SeqStep(n, i, comma, f, s, base);
      SeqFromAtoms(n, i + 1, comma, f, s.(code := base + ChildCodes(LitCodes(n.children)[..i + 1], comma)), base);
    }
  }

  /**
   * `_compileAggregate` on literal children: the open character, the children's codes
   * separated by `,`, the close character; joined, `open + codes.join(",") + close`.
   */
  lemma AggregateOfAtoms(n: Node, open: string, close: string, f: Option<Frame>, s: State)
    requires n.Group? || n.Array? || n.Dict?
    requires forall a :: a in n.children ==> a.Literal? || a.TemplateData?
    ensures GenAggregate(n, open, close, f, s) ==
      Step(Done, f, s.(code := s.code + [open] + Separated(LitCodes(n.children), ",") + [close]))
  {
    var s1 := s.Emit(open);
    assert LitCodes(n.children)[..0] == [];
    SeqFromAtoms(n, 0, true, f, s1, s1.code);
    Bracketed(s, open, Separated(LitCodes(n.children), ","), close);
  }

  /** `compileOutput` on literal children: `<buffer> += `, the codes with nothing between them, `;`. */
  lemma OutputOfAtoms(children: seq<Node>, f: Option<Frame>, s: State)
    requires forall a :: a in children ==> a.Literal? || a.TemplateData?
    ensures GenOutput(Output(children), f, s) ==
      Step(Done, f, s.(code := s.code + [s.BufferName() + " += "] + LitCodes(children) + [";\n"]))
  {
    var s1 := s.Emit(s.BufferName() + " += ");
    assert LitCodes(children)[..0] == [];
    SeqFromAtoms(Output(children), 0, false, f, s1, s1.code);
    Bracketed(s, s.BufferName() + " += ", LitCodes(children), ";\n");
  }

  // ---- Operators --------------------------------------------------------------------------

  /**
   * The fragments of a binary operation on the codes `l` and `r`: `Math.floor(l / r)` and
   * `Math.pow(l, r)`, the operator between the operands otherwise.
   */
  function BinaryFragments(op: BinOp, l: string, r: string): (fs: seq<string>)
    ensures op == FloorDiv ==> fs == ["Math.floor(", l, " / ", r, ")"]
    ensures op == Pow ==> fs == ["Math.pow(", l, ", ", r, ")"]
    ensures op != FloorDiv && op != Pow ==> fs == [l, BinOpText(op), r]
  {
    if op == FloorDiv || op == Pow then
      [if op == FloorDiv then "Math.floor(" else "Math.pow(", l, BinOpText(op), r, ")"]
    else [l, BinOpText(op), r]
  }

  /** `compileFloorDiv` and `compilePow` on two literals: the `Math` call around both operands. */
  lemma MathCallOfLiterals(op: BinOp, a: LitValue, b: LitValue, f: Option<Frame>, s: State)
    requires op == FloorDiv || op == Pow
    ensures GenBinary(Binary(op, Literal(a), Literal(b)), f, s) ==
      Step(Done, f, s.Emit(if op == FloorDiv then "Math.floor(" else "Math.pow(").Emit(LitCode(a)).Emit(BinOpText(op)).Emit(LitCode(b)).Emit(")"))
  {
    var s0 := s.Emit(if op == FloorDiv then "Math.floor(" else "Math.pow(");
    LiteralCompiles(a, f, s0);
    LiteralCompiles(b, f, s0.Emit(LitCode(a)).Emit(BinOpText(op)));
  }

  /** `binOpEmitter` on two literals: the operator between the operands. */
  lemma InfixOfLiterals(op: BinOp, a: LitValue, b: LitValue, f: Option<Frame>, s: State)
    requires op != FloorDiv && op != Pow
    ensures GenBinary(Binary(op, Literal(a), Literal(b)), f, s) ==
      Step(Done, f, s.Emit(LitCode(a)).Emit(BinOpText(op)).Emit(LitCode(b)))
  {
    LiteralCompiles(a, f, s);
    LiteralCompiles(b, f, s.Emit(LitCode(a)).Emit(BinOpText(op)));
  }

  /** The operators' emits add up to `BinaryFragments`. */
  lemma BinaryText(op: BinOp, s: State, l: string, r: string)
    ensures op == FloorDiv || op == Pow ==>
      s.Emit(if op == FloorDiv then "Math.floor(" else "Math.pow(").Emit(l).Emit(BinOpText(op)).Emit(r).Emit(")") ==
      s.(code := s.code + BinaryFragments(op, l, r))
    ensures op != FloorDiv && op != Pow ==> s.Emit(l).Emit(BinOpText(op)).Emit(r) == s.(code := s.code + BinaryFragments(op, l, r))
  {
  }

  /** `binOpEmitter`, `compileFloorDiv` and `compilePow` on two literals. */
  lemma BinaryOfLiterals(op: BinOp, a: LitValue, b: LitValue, f: Option<Frame>, s: State)
    ensures GenBinary(Binary(op, Literal(a), Literal(b)), f, s) ==
      Step(Done, f, s.(code := s.code + BinaryFragments(op, LitCode(a), LitCode(b))))
  {
    BinaryText(op, s, LitCode(a), LitCode(b));
    if op == FloorDiv || op == Pow {
      MathCallOfLiterals(op, a, b, f, s);
    } else {
      InfixOfLiterals(op, a, b, f, s);
    }
  }

  /** `compileNot`, `compileNeg` and `compilePos` on a literal: the operator, then the operand. */
  lemma UnaryOfLiteral(op: UnOp, a: LitValue, f: Option<Frame>, s: State)
    ensures GenUnary(Unary(op, Literal(a)), f, s) == Step(Done, f, s.(code := s.code + [UnOpText(op), LitCode(a)]))
  {
    LiteralCompiles(a, f, s.Emit(UnOpText(op)));
  }

  // ---- Comparisons ------------------------------------------------------------------------

  /** The fragments the loop of `compileCompare` writes for literal operands: ` <op> `, then the operand. */
  function OperandFragments(ops: seq<CompareOperand>): (r: seq<string>)
    requires forall o :: o in ops ==> o.expr.Literal?
    ensures |r| == 2 * |ops|
  {
    if ops == [] then []
    else
      var o := ops[|ops| - 1];
      OperandFragments(ops[..|ops| - 1]) + [" " + CompareText(o.op) + " ", LitCode(o.expr.lit)]
  }

  /** One more operand adds its operator and its code. */
  lemma OperandFragmentsStep(ops: seq<CompareOperand>, i: nat)
    requires i < |ops| && forall o :: o in ops ==> o.expr.Literal?
    ensures OperandFragments(ops[..i + 1]) == OperandFragments(ops[..i]) + [" " + CompareText(ops[i].op) + " ", LitCode(ops[i].expr.lit)]
  {
    assert ops[..i + 1][..i] == ops[..i];
    assert ops[..i + 1][i] == ops[i];
  }

  /** The code after operand `i` is the fragments of the operands up to `i`. */
  lemma OperandsAfter(ops: seq<CompareOperand>, i: nat, base: seq<string>, code: seq<string>)
    requires i < |ops| && forall o :: o in ops ==> o.expr.Literal?
    requires code == base + OperandFragments(ops[..i])
    ensures code + [" " + CompareText(ops[i].op) + " ", LitCode(ops[i].expr.lit)] == base + OperandFragments(ops[..i + 1])
  {
    OperandFragmentsStep(ops, i);
  }

  /** One operand of `compileCompare` that is a literal: its operator, then its code. */
  lemma OperandLiteral(n: Node, i: nat, f: Option<Frame>, s: State)
    requires n.Compare? && i < |n.ops| && forall o :: o in n.ops ==> o.expr.Literal?
    ensures GenOperand(n, i, f, s) ==
      Step(Done, f, s.(code := s.code + [" " + CompareText(n.ops[i].op) + " ", LitCode(n.ops[i].expr.lit)]))
  {
    assert n.ops[i] in n.ops;
    LiteralCompiles(n.ops[i].expr.lit, f, s.Emit(" " + CompareText(n.ops[i].op) + " "));
  }

  /** One turn of the loop of `compileCompare`: stop at a failure, otherwise go on. */
  lemma OperandsFromUnfold(n: Node, i: nat, f: Option<Frame>, s: State)
    requires n.Compare? && i < |n.ops|
    ensures var r := GenOperand(n, i, f, s);
      GenOperandsFrom(n, i, f, s) == if r.status.Failed? then r else GenOperandsFrom(n, i + 1, r.frame, r.st)
  {
  }

  /** A literal operand moves the loop of `compileCompare` on by its two fragments. */
  lemma OperandsStep(n: Node, i: nat, f: Option<Frame>, s: State, base: seq<string>)
    requires n.Compare? && i < |n.ops| && forall o :: o in n.ops ==> o.expr.Literal?
    requires s.code == base + OperandFragments(n.ops[..i])
    ensures GenOperandsFrom(n, i, f, s) == GenOperandsFrom(n, i + 1, f, s.(code := base + OperandFragments(n.ops[..i + 1])))
  {
    var t := s.(code := s.code + [" " + CompareText(n.ops[i].op) + " ", LitCode(n.ops[i].expr.lit)]);
    OperandLiteral(n, i, f, s);
    OperandsFromUnfold(n, i, f, s);
    OperandsAfter(n.ops, i, base, s.code);
    assert t == s.(code := base + OperandFragments(n.ops[..i + 1]));
  }

  /** The loop of `compileCompare` over literal operands, from operand `i` on. */
  lemma {:induction false} OperandsFromLiterals(n: Node, i: nat, f: Option<Frame>, s: State, base: seq<string>)
    requires n.Compare? && i <= |n.ops| && forall o :: o in n.ops ==> o.expr.Literal?
    requires s.code == base + OperandFragments(n.ops[..i])
    ensures GenOperandsFrom(n, i, f, s) == Step(Done, f, s.(code := base + OperandFragments(n.ops)))
    decreases |n.ops| - i
  {
    if i == |n.ops| {
      assert n.ops[..i] == n.ops;
    } else {
      OperandsStep(n, i, f, s, base);
      OperandsFromLiterals(n, i + 1, f, s.(code := base + OperandFragments(n.ops[..i + 1])), base);
    }
  }

  /** `compileCompare` on literals: the first operand, then ` <op> ` and each further operand. */
  lemma CompareOfLiterals(a: LitValue, ops: seq<CompareOperand>, f: Option<Frame>, s: State)
    requires forall o :: o in ops ==> o.expr.Literal?
    ensures GenCompare(Compare(Literal(a), ops), f, s) ==
      Step(Done, f, s.(code := s.code + [LitCode(a)] + OperandFragments(ops)))
  {
    var s1 := s.Emit(LitCode(a));
    LiteralCompiles(a, f, s);
    assert ops[..0] == [];
    OperandsFromLiterals(Compare(Literal(a), ops), 0, f, s1, s1.code);
  }

  // ---- Lookups and calls ------------------------------------------------------------------

  /** `compileLookupVal` on literals: `(target)[key]`. */
  lemma LookupValOfLiterals(t: LitValue, v: LitValue, f: Option<Frame>, s: State)
    ensures GenLookupVal(LookupVal(Literal(t), Literal(v)), f, s) ==
      Step(Done, f, s.(code := s.code + ["(", LitCode(t), ")", "[", LitCode(v), "]"]))
  {
    LiteralExpression(t, f, s.Emit("("));
    LiteralExpression(v, f, s.Emit("(").Emit(LitCode(t)).Emit(")").Emit("["));
    LookupValText(s, LitCode(t), LitCode(v));
  }

  /** The emits of `compileLookupVal` add up to `(target)[key]`. */
  lemma LookupValText(s: State, t: string, v: string)
    ensures s.Emit("(").Emit(t).Emit(")").Emit("[").Emit(v).Emit("]") == s.(code := s.code + ["(", t, ")", "[", v, "]"])
  {
  }

  /** `_emitWrappedExpression` on a named callee: `(`, the name's code, `)`. */
  lemma WrappedSymbol(name: string, args: seq<Arg>, fr: Frame, s: State)
    ensures GenWrapped(FunCall(Symbol(name), args), Some(fr), s) ==
      Step(Done, Some(fr), s.(code := s.code + ["(", SymbolCode(fr, name), ")"]))
  {
    SymbolExpression(name, fr, s.Emit("("));
    ParenText(s, SymbolCode(fr, name));
  }

  /** `(`, a code, `)`. */
  lemma ParenText(s: State, x: string)
    ensures s.Emit("(").Emit(x).Emit(")") == s.(code := s.code + ["(", x, ")"])
  {
  }

  /** `_emitWrappedExpression` on a literal callee: `(`, the literal's code, `)`. */
  lemma WrappedLiteral(v: LitValue, args: seq<Arg>, f: Option<Frame>, s: State)
    ensures GenWrapped(FunCall(Literal(v), args), f, s) == Step(Done, f, s.(code := s.code + ["(", LitCode(v), ")"]))
  {
    LiteralExpression(v, f, s.Emit("("));
    ParenText(s, LitCode(v));
  }

  /**
   * The two call forms `compileFunCall` emits after the `isMacro` test, for a callee whose code
   * is `callee`, the positional fragments `pos` (separators included) and the keyword
   * fragments `kw`: the macro call given the positional list and the keyword object, then
   * the plain call given the positional arguments.
   */
  function BranchFragments(callee: string, pos: seq<string>, kw: seq<string>): seq<string>
  {
    ["(", "["] + pos + ["]", ", ", "{"] + kw + ["}", ") : ", "(", callee, ")", "("] + pos + [")"]
  }

  /** The whole of `compileFunCall`: the callee, the `isMacro` test on it, the two call forms. */
  function CallFragments(callee: string, pos: seq<string>, kw: seq<string>): seq<string>
  {
    ["(", callee, ")", ".isMacro ? ", "(", callee, ")"] + BranchFragments(callee, Separated(pos, ", "), kw)
  }

  /** The states the two call forms pass through add up to `BranchFragments`. */
  lemma BranchText(s: State, callee: string, pos: seq<string>, kw: seq<string>)
    ensures var t3 := s.Emit("(").(code := s.Emit("(").code + ["["] + pos + ["]"]);
      var t4 := t3.Emit(", ").(code := t3.Emit(", ").code + ["{"] + kw + ["}"]);
      var t5 := t4.Emit(") : ").(code := t4.Emit(") : ").code + ["(", callee, ")"]);
      t5.(code := t5.code + ["("] + pos + [")"]) == s.(code := s.code + BranchFragments(callee, pos, kw))
  {
  }

  /** The two call forms of `compileFunCall`, for a named callee and literal arguments. */
  lemma CallBranchesOfLiterals(name: string, args: seq<Arg>, fr: Frame, s: State)
    requires forall v :: v in Positional(args) ==> v.Literal?
    requires forall a :: a in Keyword(args) ==> a.value.Literal?
    ensures GenCallBranches(FunCall(Symbol(name), args), Some(fr), s) ==
      Step(Done, Some(fr), s.(code := s.code + BranchFragments(SymbolCode(fr, name), Separated(LitCodes(Positional(args)), ", "), KwargFragments(Keyword(args)))))
  {
    var n := FunCall(Symbol(name), args);
    ArgsBelow(n);
    var p, k := Positional(args), Keyword(args);
    var c, sp, kf := SymbolCode(fr, name), Separated(LitCodes(p), ", "), KwargFragments(k);
    var s3 := s.Emit("(");
    PositionalArgumentsAreSeparated(n, p, "[", "]", Some(fr), s3);
    var t3 := s3.(code := s3.code + ["["] + sp + ["]"]);
    KeywordArgumentsAreNotSeparated(n, k, Some(fr), t3.Emit(", "));
    var t4 := t3.Emit(", ").(code := t3.Emit(", ").code + ["{"] + kf + ["}"]);
    WrappedSymbol(name, args, fr, t4.Emit(") : "));
    var t5 := t4.Emit(") : ").(code := t4.Emit(") : ").code + ["(", c, ")"]);
    PositionalArgumentsAreSeparated(n, p, "(", ")", Some(fr), t5);
    BranchText(s, c, sp, kf);
  }

  /** The callee twice, around the `isMacro` test, then the call forms: `CallFragments`. */
  lemma CallText(s: State, callee: string, pos: seq<string>, kw: seq<string>)
    ensures var s1 := s.(code := s.code + ["(", callee, ")"]);
      var s2 := s1.Emit(".isMacro ? ").(code := s1.Emit(".isMacro ? ").code + ["(", callee, ")"]);
      s2.(code := s2.code + BranchFragments(callee, Separated(pos, ", "), kw)) == s.(code := s.code + CallFragments(callee, pos, kw))
  {
  }

  /** The `isMacro` test of `compileFunCall` on a named callee: the callee twice. */
  lemma MacroTestOfSymbol(name: string, args: seq<Arg>, fr: Frame, s: State)
    ensures var s1 := s.(code := s.code + ["(", SymbolCode(fr, name), ")"]);
      GenFunCall(FunCall(Symbol(name), args), Some(fr), s) ==
      GenCallBranches(FunCall(Symbol(name), args), Some(fr), s1.Emit(".isMacro ? ").(code := s1.Emit(".isMacro ? ").code + ["(", SymbolCode(fr, name), ")"]))
  {
    var s1 := s.(code := s.code + ["(", SymbolCode(fr, name), ")"]);
    WrappedSymbol(name, args, fr, s);
    WrappedSymbol(name, args, fr, s1.Emit(".isMacro ? "));
  }

  /**
   * `compileFunCall` on a named callee with literal arguments: the callee, the `isMacro` test
   * on it, the macro call given the separated positional list and the keyword object, and
   * the plain call given the separated positional arguments.
   */
  lemma FunCallOfLiterals(name: string, args: seq<Arg>, fr: Frame, s: State)
    requires forall v :: v in Positional(args) ==> v.Literal?
    requires forall a :: a in Keyword(args) ==> a.value.Literal?
    ensures GenFunCall(FunCall(Symbol(name), args), Some(fr), s) ==
      Step(Done, Some(fr), s.(code := s.code + CallFragments(SymbolCode(fr, name), LitCodes(Positional(args)), KwargFragments(Keyword(args)))))
  {
    var c := SymbolCode(fr, name);
    var s1 := s.(code := s.code + ["(", c, ")"]);
    var s2 := s1.Emit(".isMacro ? ").(code := s1.Emit(".isMacro ? ").code + ["(", c, ")"]);
    MacroTestOfSymbol(name, args, fr, s);
    CallBranchesOfLiterals(name, args, fr, s2);
    CallText(s, c, LitCodes(Positional(args)), KwargFragments(Keyword(args)));
  }

  // ---- Statements -------------------------------------------------------------------------

  /** The lines of `compileIf` for the codes of the condition, the body and the optional else branch. */
  function IfFragments(cond: string, body: string, else_: Option<string>): seq<string>
  {
    ["if(", cond, ") {" + "\n", body] + (if else_.Some? then ["}\nelse {" + "\n", else_.value] else []) + ["}" + "\n"]
  }

  /** The states `compileIf` passes through add up to `IfFragments`. */
  lemma IfText(s: State, cond: string, body: string, else_: Option<string>)
    ensures var s3 := s.Emit("if(").Emit(cond).EmitLine(") {").Emit(body);
      var s4 := if else_.Some? then s3.EmitLine("}\nelse {").Emit(else_.value) else s3;
      s4.EmitLine("}") == s.(code := s.code + IfFragments(cond, body, else_))
  {
  }

  /**
   * `compileIf` with a literal condition and literal branches: `if(`, the condition, `) {`,
   * the body, the `else` part exactly when there is an else branch, `}`.
   */
  lemma IfOfAtoms(c: LitValue, body: Node, else_: Option<Node>, f: Option<Frame>, s: State)
    requires body.Literal? || body.TemplateData?
    requires else_.Some? ==> else_.value.Literal? || else_.value.TemplateData?
    ensures GenIf(If(Literal(c), body, else_), f, s) ==
      Step(Done, f, s.(code := s.code + IfFragments(LitCode(c), LitCode(body.lit),
                                                    if else_.Some? then Some(LitCode(else_.value.lit)) else None)))
  {
    var s1 := s.Emit("if(");
    LiteralExpression(c, f, s1);
    var s2 := s1.Emit(LitCode(c)).EmitLine(") {");
    AtomCompiles(body, f, s2);
    var s3 := s2.Emit(LitCode(body.lit));
    if else_.Some? {
      AtomCompiles(else_.value, f, s3.EmitLine("}\nelse {"));
    }
    IfText(s, LitCode(c), LitCode(body.lit), if else_.Some? then Some(LitCode(else_.value.lit)) else None);
  }

  /** The two lines of `compileInclude` for the template name's code and the buffer's name. */
  function IncludeFragments(buffer: string, template: string): seq<string>
  {
    ["var includeTemplate = env.getTemplate(", template, ");" + "\n",
     buffer + " += includeTemplate.render(" + "context.getVariables(), frame);" + "\n"]
  }

  /** The states `compileInclude` passes through add up to `IncludeFragments`. */
  lemma IncludeText(s: State, template: string)
    ensures var s1 := s.Emit("var includeTemplate = env.getTemplate(").Emit(template).EmitLine(");");
      s1.EmitLine(s1.BufferName() + " += includeTemplate.render(" + "context.getVariables(), frame);") ==
      s.(code := s.code + IncludeFragments(s.BufferName(), template))
  {
  }

  /** `compileInclude` of a literal template name: fetch it, then render it into the buffer. */
  lemma IncludeOfLiteral(v: LitValue, f: Option<Frame>, s: State)
    ensures GenInclude(Include(Literal(v)), f, s) == Step(Done, f, s.(code := s.code + IncludeFragments(s.BufferName(), LitCode(v))))
  {
    LiteralExpression(v, f, s.Emit("var includeTemplate = env.getTemplate("));
    IncludeText(s, LitCode(v));
  }

  // ---- Macro definitions ------------------------------------------------------------------

  /** A parameter's default is absent or a literal. */
  predicate LiteralDefault(p: Param)
  {
    p.default.Some? ==> p.default.value.Literal?
  }

  /** The entry `macroDef` writes for one parameter: `["<name>", <default or null>]`. */
  function EntryFragments(p: Param): (r: seq<string>)
    requires LiteralDefault(p)
    ensures |r| == 3 && r[0] == "[\"" + p.name + "\", " && r[2] == "]"
    ensures r[1] == if p.default.Some? then LitCode(p.default.value.lit) else "null"
  {
    ["[\"" + p.name + "\", ", if p.default.Some? then LitCode(p.default.value.lit) else "null", "]"]
  }

  /** The entries of the parameter list, in parameter order, separated by `, `. */
  function EntriesFragments(ps: seq<Param>): (r: seq<string>)
    requires forall p :: p in ps ==> LiteralDefault(p)
    ensures |r| == if ps == [] then 0 else 4 * |ps| - 1
    ensures ps != [] ==> r[..3] == EntryFragments(ps[0])
  {
    if ps == [] then []
    else if |ps| == 1 then EntryFragments(ps[0])
    else EntryFragments(ps[0]) + [", "] + EntriesFragments(ps[1..])
  }

  /** One entry of `macroDef` for a parameter with a literal default or none. */
  lemma ParamEntryLiteral(n: Node, p: Param, f: Option<Frame>, s: State)
    requires n.Macro? && p in n.params && LiteralDefault(p)
    ensures GenParamEntry(n, p, f, s) == Step(Done, f, s.(code := s.code + EntryFragments(p)))
  {
    if p.default.Some? {
      LiteralCompiles(p.default.value.lit, f, s.Emit("[\"" + p.name + "\", "));
    }
  }

  /** One turn of the loop of `macroDef`: stop at a failure, otherwise the separator and the rest. */
  lemma DefaultsFromUnfold(n: Node, i: nat, f: Option<Frame>, s: State)
    requires n.Macro? && i < |n.params|
    ensures var r := GenParamEntry(n, n.params[i], f, s);
      GenDefaultsFrom(n, i, f, s) ==
        if r.status.Failed? then r
        else GenDefaultsFrom(n, i + 1, r.frame, if i != |n.params| - 1 then r.st.Emit(", ") else r.st)
  {
  }

  /** A parameter with a literal default or none moves the loop of `macroDef` on by its entry. */
  lemma DefaultsStep(n: Node, i: nat, f: Option<Frame>, s: State)
    requires n.Macro? && i < |n.params| && forall p :: p in n.params ==> LiteralDefault(p)
    ensures GenDefaultsFrom(n, i, f, s) ==
      GenDefaultsFrom(n, i + 1, f, s.(code := s.code + EntryFragments(n.params[i]) + (if i != |n.params| - 1 then [", "] else [])))
  {
    var p := n.params[i];
    assert p in n.params;
    ParamEntryLiteral(n, p, f, s);
    DefaultsFromUnfold(n, i, f, s);
    var t := s.(code := s.code + EntryFragments(p));
    assert (if i != |n.params| - 1 then t.Emit(", ") else t) ==
      s.(code := s.code + EntryFragments(p) + (if i != |n.params| - 1 then [", "] else []));
  }

  /** The entries from parameter `i` on: entry `i`, then `, ` unless it is the last, then the rest. */
  lemma EntriesFrom(ps: seq<Param>, i: nat, code: seq<string>)
    requires i < |ps| && forall p :: p in ps ==> LiteralDefault(p)
    ensures code + EntryFragments(ps[i]) + (if i != |ps| - 1 then [", "] else []) + EntriesFragments(ps[i + 1..]) ==
      code + EntriesFragments(ps[i..])
  {
    assert ps[i..][0] == ps[i];
    if i != |ps| - 1 {
      assert ps[i..][1..] == ps[i + 1..];
    } else {
      assert ps[i + 1..] == [];
    }
  }

  /** The loop of `macroDef` over parameters with literal defaults or none, from parameter `i` on. */
  lemma {:induction false} DefaultsFromLiterals(n: Node, i: nat, f: Option<Frame>, s: State)
    requires n.Macro? && i <= |n.params| && forall p :: p in n.params ==> LiteralDefault(p)
    ensures GenDefaultsFrom(n, i, f, s) == Step(Done, f, s.(code := s.code + EntriesFragments(n.params[i..])))
    decreases |n.params| - i
  {
    if i == |n.params| {
      assert n.params[i..] == [];
      assert s.code + [] == s.code;
    } else {
      var sep := if i != |n.params| - 1 then [", "] else [];
      var t := s.(code := s.code + EntryFragments(n.params[i]) + sep);
      DefaultsStep(n, i, f, s);
      DefaultsFromLiterals(n, i + 1, f, t);
      EntriesFrom(n.params, i, s.code);
      assert t.(code := t.code + EntriesFragments(n.params[i + 1..])) == s.(code := s.code + EntriesFragments(n.params[i..]));
    }
  }

  /**
   * `macroDef` for parameters with literal defaults or none: the `wrapMacro` call with one
   * `["<name>", <default or null>]` entry per parameter, in parameter order.
   */
  lemma MacroDefOfLiterals(n: Node, f: Option<Frame>, s: State)
    requires n.Macro? && forall p :: p in n.params ==> LiteralDefault(p)
    ensures GenMacroDef(n, f, s) ==
      Step(Done, f, s.(code := s.code + ["runtime.wrapMacro(macro, \"" + n.name + "\", " + "["] +
                               EntriesFragments(n.params) + ["], false, false, false);" + "\n"]))
  {
    var open := "runtime.wrapMacro(macro, \"" + n.name + "\", " + "[";
    assert n.params[0..] == n.params;
    DefaultsFromLiterals(n, 0, f, s.Emit(open));
    Bracketed(s, open, EntriesFragments(n.params), "], false, false, false);" + "\n");
  }

  // ---- Extends ----------------------------------------------------------------------------

  /** An `extends` of a literal template name, outside a child, succeeds and makes it a child. */
  lemma ExtendsOfLiteral(t: LitValue, f: Option<Frame>, s: State)
    requires !s.isChild
    ensures var r := Gen(Extends(Literal(t)), f, s); r.status.Done? && r.frame == f && r.st.isChild
  {
    ExtendsDispatch(Literal(t), f, s);
    LiteralExpression(t, f, s.Emit("var parentTemplate = env.getTemplate("));
  }

  /** The macro call's argument list: the `extends` compiles and makes the template a child. */
  lemma FirstExtendsArgument(n: Node, e: Node, t: LitValue, f: Option<Frame>, s: State)
    requires e == Extends(Literal(t)) && e < n && !s.isChild
    ensures var r := GenCallArgs(n, [e], "[", "]", f, s); r.status.Done? && r.frame == f && r.st.isChild
  {
    CallArgsFromUnfold(n, [e], 0, f, s.Emit("["));
    ExtendsOfLiteral(t, f, s.Emit("["));
  }

  /** The plain call's argument list: the same `extends`, now in a child, fails. */
  lemma SecondExtendsArgument(n: Node, e: Node, t: LitValue, f: Option<Frame>, s: State)
    requires e == Extends(Literal(t)) && e < n && s.isChild
    ensures GenCallArgs(n, [e], "(", ")", f, s).status == Failed(MultipleExtends)
  {
    CallArgsFromUnfold(n, [e], 0, f, s.Emit("("));
    ExtendsDispatch(Literal(t), f, s.Emit("("));
  }

  /** No keyword arguments: `{}`. */
  lemma NoKeywordArguments(n: Node, f: Option<Frame>, s: State)
    ensures GenKwargs(n, [], f, s) == Step(Done, f, s.Emit("{").Emit("}"))
  {
    assert GenKwargsFrom(n, [], 0, f, s.Emit("{")) == Step(Done, f, s.Emit("{"));
  }

  /** A single keyless argument is the one positional argument and there is no keyword argument. */
  lemma SingleArgument(e: Node)
    ensures Positional([Arg(None, e)]) == [e] && Keyword([Arg(None, e)]) == []
  {
    assert [Arg(None, e)][..0] == [];
  }

  /** The two call forms with one `extends` argument: the second one fails. */
  lemma ExtendsBranchFails(v: LitValue, t: LitValue, f: Option<Frame>, s: State)
    requires !s.isChild
    ensures GenCallBranches(FunCall(Literal(v), [Arg(None, Extends(Literal(t)))]), f, s).status == Failed(MultipleExtends)
  {
    var e := Extends(Literal(t));
    var n := FunCall(Literal(v), [Arg(None, e)]);
    SingleArgument(e);
    FirstExtendsArgument(n, e, t, f, s.Emit("("));
    var r3 := GenCallArgs(n, [e], "[", "]", f, s.Emit("("));
    NoKeywordArguments(n, f, r3.st.Emit(", "));
    var s4 := r3.st.Emit(", ").Emit("{").Emit("}");
    WrappedLiteral(v, n.args, f, s4.Emit(") : "));
    SecondExtendsArgument(n, e, t, f, s4.Emit(") : ").(code := s4.Emit(") : ").code + ["(", LitCode(v), ")"]));
  }

  /**
   * `compileFunCall` compiles its positional arguments twice (the macro call and the plain
   * call).  A single `extends` given as a positional argument therefore fails with
   * `cannot extend multiple times`, though the template extends only once.
   */
  lemma ExtendsAsCallArgumentFails(v: LitValue, t: LitValue, f: Option<Frame>, s: State)
    requires !s.isChild
    ensures Gen(FunCall(Literal(v), [Arg(None, Extends(Literal(t)))]), f, s).status == Failed(MultipleExtends)
  {
    var n := FunCall(Literal(v), [Arg(None, Extends(Literal(t)))]);
    assert Gen(n, f, s) == GenValue(n, f, s) == GenFunCall(n, f, s);
    WrappedLiteral(v, n.args, f, s);
    var s1 := s.(code := s.code + ["(", LitCode(v), ")"]);
    WrappedLiteral(v, n.args, f, s1.Emit(".isMacro ? "));
    ExtendsBranchFails(v, t, f, s1.Emit(".isMacro ? ").(code := s1.Emit(".isMacro ? ").code + ["(", LitCode(v), ")"]));
  }
}
