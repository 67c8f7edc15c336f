/**
 * The `Compiler` class: a code buffer, a temporary-name counter, the name of the current
 * output buffer and a child-template flag, updated in place by one method per handler.
 * Every compile method is proved to leave the object, and to hand back the frame, exactly
 * as the corresponding `Gen...` function of `CodeGen` describes; the properties of those
 * functions are proved in `CompilerProperties`.
 */
module TemplateCompiler {
  import opened Wrappers
  import opened Frames
  import opened Text
  import opened Ast
  import opened CodeGen

  class Compiler {
    var codebuf: seq<string>
    var lastId: nat
    var buffer: Option<string>
    var isChild: bool

    /** The fields as a value. */
    function St(): State
      reads this
    {
      State(codebuf, lastId, buffer, isChild)
    }

    /** `init` */
    constructor ()
      ensures St() == Initial
    {
      codebuf := [];
      lastId := 0;
      buffer := None;
      isChild := false;
    }

    method Emit(code: string)
      modifies this
      ensures St() == old(St()).Emit(code)
    {
      codebuf := codebuf + [code];
    }

    method EmitLine(code: string)
      modifies this
      ensures St() == old(St()).EmitLine(code)
    {
      Emit(code + "\n");
    }

    method EmitFuncBegin(name: string)
      modifies this
      ensures St() == old(St()).FuncBegin(name)
    {
      buffer := Some("output");
      EmitLine("function " + name + "(env, context, frame, runtime) {");
      EmitLine("var " + St().BufferName() + " = \"\";");
    }

    method EmitFuncEnd(noReturn: bool)
      modifies this
      ensures St() == old(St()).FuncEnd(noReturn)
    {
      if !noReturn {
        EmitLine("return " + St().BufferName() + ";");
      }
      EmitLine("}");
      buffer := None;
    }

    /** `tmpid`: a fresh temporary name, distinct from every earlier one. */
    method TmpId() returns (id: string)
      modifies this
      ensures St() == old(St()).Next()
      ensures id == TmpName(lastId)
    {
      lastId := lastId + 1;
      id := TmpName(lastId);
    }

    /** `getCode`: the fragments concatenated in order. */
    method GetCode() returns (code: string)
      ensures code == Join(codebuf, "")
    {
      code := "";
      var i := 0;
      while i < |codebuf|
        invariant 0 <= i <= |codebuf|
        invariant code == Join(codebuf[..i], "")
      {
        JoinAppend(codebuf[..i], codebuf[i]);
        assert codebuf[..i + 1] == codebuf[..i] + [codebuf[i]];
        code := code + codebuf[i];
        i := i + 1;
      }
      assert codebuf[..i] == codebuf;
    }

    /** `assertType`: whether the node is of one of the listed kinds. */
    method AssertType(n: Node, kinds: seq<string>) returns (success: bool)
      ensures success <==> exists k :: k in kinds && InstanceOf(n, k)
    {
      success := false;
      var i := 0;
      while i < |kinds|
        invariant 0 <= i <= |kinds|
        invariant success <==> exists k :: k in kinds[..i] && InstanceOf(n, k)
      {
        assert kinds[..i + 1] == kinds[..i] + [kinds[i]];
        if InstanceOf(n, kinds[i]) {
          success := true;
        }
        i := i + 1;
      }
      assert kinds[..i] == kinds;
    }

    /** `collectArgs`: positional arguments and keyword arguments, each in call order. */
    method CollectArgs(n: Node) returns (args: seq<Node>, kwargs: seq<Arg>)
      requires n.FunCall? || n.Filter?
      ensures args == Positional(n.args) && kwargs == Keyword(n.args)
    {
      args, kwargs := [], [];
      var i := 0;
      while i < |n.args|
        invariant 0 <= i <= |n.args|
        invariant args == Positional(n.args[..i]) && kwargs == Keyword(n.args[..i])
      {
        ArgsStep(n.args, i);
        var arg := n.args[i];
        if arg.key.Some? {
          kwargs := kwargs + [arg];
        } else {
          args := args + [arg.value];
        }
        i := i + 1;
      }
      assert n.args[..i] == n.args;
    }

    /** `compile`: dispatch on the node kind. */
    method Compile(n: Node, f: Option<Frame>) returns (status: Status, g: Option<Frame>)
      modifies this
      ensures Step(status, g, St()) == Gen(n, f, old(St()))
      decreases n, 3
    {
      if IsValueSyntax(n) {
        status, g := CompileValue(n, f);
      } else {
        status, g := CompileStatement(n, f);
      }
    }

    /** `compile` on a value-building node. */
    method CompileValue(n: Node, f: Option<Frame>) returns (status: Status, g: Option<Frame>)
      requires IsValueSyntax(n)
      modifies this
      ensures Step(status, g, St()) == GenValue(n, f, old(St()))
      decreases n, 2
    {
      match n
      case Literal(v) =>
        CompileLiteral(v);
        status, g := Done, f;
      case Symbol(x) => status, g := CompileSymbol(x, f);
      case Group(_) => status, g := CompileAggregate(n, f, "(", ")");
      case Array(_) => status, g := CompileAggregate(n, f, "[", "]");
      case Dict(_) => status, g := CompileAggregate(n, f, "{", "}");
      case Pair(_, _) => status, g := CompilePair(n, f);
      case Binary(_, _, _) => status, g := CompileBinary(n, f);
      case Unary(_, _) => status, g := CompileUnary(n, f);
      case Compare(_, _) => status, g := CompileCompare(n, f);
      case LookupVal(_, _) => status, g := CompileLookupVal(n, f);
      case FunCall(_, _) => status, g := CompileFunCall(n, f);
      case Filter(_, _) => status, g := CompileFilter(n, f);
    }

    /** `compile` on any other node. */
    method CompileStatement(n: Node, f: Option<Frame>) returns (status: Status, g: Option<Frame>)
      requires !IsValueSyntax(n)
      modifies this
      ensures Step(status, g, St()) == GenStatement(n, f, old(St()))
      decreases n, 2, 1
    {
      if IsDefinition(n) {
        status, g := CompileDefinition(n, f);
      } else {
        status, g := CompileContent(n, f);
      }
    }

    /** `compile` on a node that binds names or shapes the template. */
    method CompileDefinition(n: Node, f: Option<Frame>) returns (status: Status, g: Option<Frame>)
      requires IsDefinition(n)
      modifies this
      ensures Step(status, g, St()) == GenDefinition(n, f, old(St()))
      decreases n, 2, 0
    {
      match n
      case Set(_, _) => status, g := CompileSet(n, f);
      case Macro(_, _, _) => status, g := CompileMacro(n, f);
      case Import(_, _) => status, g := CompileImport(n, f);
      case FromImport(_, _) => status, g := CompileFromImport(n, f);
      case Block(name, _) =>
        CompileBlock(name);
        status, g := Done, f;
      case Extends(_) => status, g := CompileExtends(n, f);
      case Root(_) => status, g := CompileRoot(n, f);
    }

    /** `compile` on a control-flow or output node, or one of unknown kind. */
    method CompileContent(n: Node, f: Option<Frame>) returns (status: Status, g: Option<Frame>)
      requires !IsValueSyntax(n) && !IsDefinition(n)
      modifies this
      ensures Step(status, g, St()) == GenContent(n, f, old(St()))
      decreases n, 2, 0
    {
      match n
      case If(_, _, _) => status, g := CompileIf(n, f);
      case For(_, _, _) => status, g := CompileFor(n, f);
      case Include(_) => status, g := CompileInclude(n, f);
      case Output(_) => status, g := CompileOutput(n, f);
      case TemplateData(v) =>
        CompileLiteral(v);
        status, g := Done, f;
      case NodeList(_) => status, g := CompileChildren(n, f);
      case Unknown(k) => status, g := Failed(CannotCompile(k)), f;
    }

    /** `_compileChildren` (also `compileNodeList`). */
    method CompileChildren(n: Node, f: Option<Frame>) returns (status: Status, g: Option<Frame>)
      requires HasChildren(n)
      modifies this
      ensures Step(status, g, St()) == GenSeqFrom(n, 0, false, f, old(St()))
      decreases n, 0
    {
      g := f;
      var i := 0;
      while i < |n.children|
        invariant 0 <= i <= |n.children|
        invariant GenSeqFrom(n, i, false, g, St()) == GenSeqFrom(n, 0, false, f, old(St()))
      {
        ghost var s0, g0 := St(), g;
        status, g := Compile(n.children[i], g);
        assert GenSeqFrom(n, i, false, g0, s0) ==
          if status.Failed? then Step(status, g, St()) else GenSeqFrom(n, i + 1, false, g, St());
        if status.Failed? {
          return;
        }
        i := i + 1;
      }
      status := Done;
    }

    /** `_compileAggregate`: the children between `open` and `close`, separated by commas. */
    method CompileAggregate(n: Node, f: Option<Frame>, open: string, close: string) returns (status: Status, g: Option<Frame>)
      requires n.Group? || n.Array? || n.Dict?
      modifies this
      ensures Step(status, g, St()) == GenAggregate(n, open, close, f, old(St()))
      decreases n, 1
    {
      Emit(open);
      ghost var s1 := St();
      g := f;
      var i := 0;
      while i < |n.children|
        invariant 0 <= i <= |n.children|
        invariant GenSeqFrom(n, i, true, g, St()) == GenSeqFrom(n, 0, true, f, s1)
      {
        ghost var s0, g0 := St(), g;
        if i > 0 {
          Emit(",");
        }
        status, g := Compile(n.children[i], g);
        assert GenSeqFrom(n, i, true, g0, s0) ==
          if status.Failed? then Step(status, g, St()) else GenSeqFrom(n, i + 1, true, g, St());
        if status.Failed? {
          return;
        }
        i := i + 1;
      }
      Emit(close);
      status := Done;
    }

    /** `_compileExpression`: only expression kinds may be compiled here. */
    method CompileExpression(n: Node, f: Option<Frame>) returns (status: Status, g: Option<Frame>)
      modifies this
      ensures Step(status, g, St()) == GenExpr(n, f, old(St()))
      decreases n, 4
    {
      var ok := AssertType(n, ExpressionKinds);
      if !ok {
        return Failed(InvalidType(KindName(n))), f;
      }
      status, g := Compile(n, f);
    }

    /** `compileLiteral` (also `compileTemplateData`). */
    method CompileLiteral(v: LitValue)
      modifies this
      ensures St() == old(St()).Emit(LitCode(v))
    {
      match v
      case Str(s) =>
        var val := ReplaceAll(s, '"', "\\\"");
        val := ReplaceAll(val, '\n', "\\n");
        val := ReplaceAll(val, '\r', "\\r");
        val := ReplaceAll(val, '\t', "\\t");
        Emit("\"" + val + "\"");
      case _ =>
        Emit(LitString(v));
    }

    /** `compileSymbol`: the compile-time binding when there is a non-empty one, else a runtime lookup. */
    method CompileSymbol(name: string, f: Option<Frame>) returns (status: Status, g: Option<Frame>)
      modifies this
      ensures Step(status, g, St()) == GenSymbol(name, f, old(St()))
    {
      if f.None? {
        return Failed(UndefinedFrame), f;
      }
      var v := f.value.Lookup(name);
      if v.Some? && v.value != "" {
        Emit(v.value);
      } else {
        Emit(FallbackLookup(name));
      }
      return Done, f;
    }

    /** `compilePair` */
    method CompilePair(n: Node, f: Option<Frame>) returns (status: Status, g: Option<Frame>)
      requires n.Pair?
      modifies this
      ensures Step(status, g, St()) == GenPair(n, f, old(St()))
      decreases n, 1
    {
      if !n.key.Symbol? {
        // the literal case is guarded by a type test on the pair itself, which never holds
        return Failed(BadDictKey), f;
      }
      CompileLiteral(Str(n.key.name));
      Emit(": ");
      status, g := CompileExpression(n.value, f);
    }

    /** `binOpEmitter`, `compileFloorDiv` and `compilePow` */
    method CompileBinary(n: Node, f: Option<Frame>) returns (status: Status, g: Option<Frame>)
      requires n.Binary?
      modifies this
      ensures Step(status, g, St()) == GenBinary(n, f, old(St()))
      decreases n, 1
    {
      if n.op == FloorDiv || n.op == Pow {
        Emit(if n.op == FloorDiv then "Math.floor(" else "Math.pow(");
        status, g := Compile(n.left, f);
        if status.Failed? {
          return;
        }
        Emit(BinOpText(n.op));
        status, g := Compile(n.right, g);
        if status.Failed? {
          return;
        }
        Emit(")");
      } else {
        status, g := Compile(n.left, f);
        if status.Failed? {
          return;
        }
        Emit(BinOpText(n.op));
        status, g := Compile(n.right, g);
      }
    }

    /** `compileNot`, `compileNeg`, `compilePos` */
    method CompileUnary(n: Node, f: Option<Frame>) returns (status: Status, g: Option<Frame>)
      requires n.Unary?
      modifies this
      ensures Step(status, g, St()) == GenUnary(n, f, old(St()))
      decreases n, 1
    {
      Emit(UnOpText(n.uop));
      status, g := Compile(n.target, f);
    }

    /** `compileCompare` */
    method CompileCompare(n: Node, f: Option<Frame>) returns (status: Status, g: Option<Frame>)
      requires n.Compare?
      modifies this
      ensures Step(status, g, St()) == GenCompare(n, f, old(St()))
      decreases n, 1
    {
      status, g := Compile(n.expr, f);
      if status.Failed? {
        return;
      }
      var i := 0;
      while i < |n.ops|
        invariant 0 <= i <= |n.ops|
        invariant GenOperandsFrom(n, i, g, St()) == GenCompare(n, f, old(St()))
      {
        ghost var s0, g0 := St(), g;
        status, g := CompileOperand(n, i, g);
        assert GenOperandsFrom(n, i, g0, s0) ==
          if status.Failed? then Step(status, g, St()) else GenOperandsFrom(n, i + 1, g, St());
        if status.Failed? {
          return;
        }
        i := i + 1;
      }
      status := Done;
    }

    /** One iteration of the loop of `compileCompare`. */
    method CompileOperand(n: Node, i: nat, f: Option<Frame>) returns (status: Status, g: Option<Frame>)
      requires n.Compare? && i < |n.ops|
      modifies this
      ensures Step(status, g, St()) == GenOperand(n, i, f, old(St()))
      decreases n, 0, 0
    {
      Emit(" " + CompareText(n.ops[i].op) + " ");
      status, g := Compile(n.ops[i].expr, f);
    }

    /** `compileLookupVal` */
    method CompileLookupVal(n: Node, f: Option<Frame>) returns (status: Status, g: Option<Frame>)
      requires n.LookupVal?
      modifies this
      ensures Step(status, g, St()) == GenLookupVal(n, f, old(St()))
      decreases n, 1
    {
      Emit("(");
      status, g := CompileExpression(n.target, f);
      if status.Failed? {
        return;
      }
      Emit(")");
      Emit("[");
      status, g := CompileExpression(n.val, g);
      if status.Failed? {
        return;
      }
      Emit("]");
    }

    /** `_emitCallArgs` */
    method EmitCallArgs(n: Node, args: seq<Node>, f: Option<Frame>, open: string, close: string) returns (status: Status, g: Option<Frame>)
      requires forall a :: a in args ==> a < n
      modifies this
      ensures Step(status, g, St()) == GenCallArgs(n, args, open, close, f, old(St()))
      decreases n, 0, 1
    {
      Emit(open);
      ghost var s1 := St();
      g := f;
      var j := 0;
      while j < |args|
        invariant 0 <= j <= |args|
        invariant GenCallArgsFrom(n, args, j, g, St()) == GenCallArgsFrom(n, args, 0, f, s1)
      {
        ghost var s0, g0 := St(), g;
        status, g := CallArg(n, args, j, g);
        CallArgsFromUnfold(n, args, j, g0, s0);
        if status.Failed? {
          return;
        }
        j := j + 1;
      }
      Emit(close);
      status := Done;
    }

    /** One iteration of the loop of `_emitCallArgs`. */
    method CallArg(n: Node, args: seq<Node>, j: nat, f: Option<Frame>) returns (status: Status, g: Option<Frame>)
      requires j < |args|
      requires forall a :: a in args ==> a < n
      modifies this
      ensures Step(status, g, St()) == GenCallArg(n, args, j, f, old(St()))
      decreases n, 0, 0
    {
      if j != 0 {
        Emit(", ");
      }
      assert args[j] in args;
      status, g := Compile(args[j], f);
    }

    /** `_emitCallKwargs`: as written, no separator between entries. */
    method EmitCallKwargs(n: Node, kwargs: seq<Arg>, f: Option<Frame>) returns (status: Status, g: Option<Frame>)
      requires forall a :: a in kwargs ==> a.key.Some? && a.value < n
      modifies this
      ensures Step(status, g, St()) == GenKwargs(n, kwargs, f, old(St()))
      decreases n, 0, 1
    {
      Emit("{");
      ghost var s1 := St();
      g := f;
      var i := 0;
      while i < |kwargs|
        invariant 0 <= i <= |kwargs|
        invariant GenKwargsFrom(n, kwargs, i, g, St()) == GenKwargsFrom(n, kwargs, 0, f, s1)
      {
        ghost var s0, g0 := St(), g;
        status, g := Kwarg(n, kwargs, i, g);
        KwargsFromUnfold(n, kwargs, i, g0, s0);
        if status.Failed? {
          return;
        }
        i := i + 1;
      }
      Emit("}");
      status := Done;
    }

    /** One iteration of the loop of `_emitCallKwargs`. */
    method Kwarg(n: Node, kwargs: seq<Arg>, i: nat, f: Option<Frame>) returns (status: Status, g: Option<Frame>)
      requires i < |kwargs|
      requires forall a :: a in kwargs ==> a.key.Some? && a.value < n
      modifies this
      ensures Step(status, g, St()) == GenKwarg(n, kwargs, i, f, old(St()))
      decreases n, 0, 0
    {
      assert kwargs[i] in kwargs;
      Emit(JoinText(kwargs[i].key.value));
      Emit(": ");
      status, g := Compile(kwargs[i].value, f);
    }

    /** `_emitWrappedExpression` */
    method EmitWrapped(n: Node, f: Option<Frame>) returns (status: Status, g: Option<Frame>)
      requires n.FunCall?
      modifies this
      ensures Step(status, g, St()) == GenWrapped(n, f, old(St()))
      decreases n, 0
    {
      Emit("(");
      status, g := CompileExpression(n.callee, f);
      if status.Failed? {
        return;
      }
      Emit(")");
    }

    /** `compileFunCall` */
    method CompileFunCall(n: Node, f: Option<Frame>) returns (status: Status, g: Option<Frame>)
      requires n.FunCall?
      modifies this
      ensures Step(status, g, St()) == GenFunCall(n, f, old(St()))
      decreases n, 1, 1
    {
      var args, kwargs := CollectArgs(n);
      status, g := EmitWrapped(n, f);
      if status.Failed? {
        return;
      }
      Emit(".isMacro ? ");
      status, g := EmitWrapped(n, g);
      if status.Failed? {
        return;
      }
      status, g := EmitCallBranches(n, args, kwargs, g);
    }

    /** The two branches of the conditional `compileFunCall` emits. */
    method EmitCallBranches(n: Node, args: seq<Node>, kwargs: seq<Arg>, f: Option<Frame>) returns (status: Status, g: Option<Frame>)
      requires n.FunCall? && args == Positional(n.args) && kwargs == Keyword(n.args)
      modifies this
      ensures Step(status, g, St()) == GenCallBranches(n, f, old(St()))
      decreases n, 1, 0
    {
      ArgsBelow(n);
      g := f;
      Emit("(");
      status, g := EmitCallArgs(n, args, g, "[", "]");
      if status.Failed? {
        return;
      }
      Emit(", ");
      status, g := EmitCallKwargs(n, kwargs, g);
      if status.Failed? {
        return;
      }
      Emit(") : ");
      status, g := EmitWrapped(n, g);
      if status.Failed? {
        return;
      }
      status, g := EmitCallArgs(n, args, g, "(", ")");
    }

    /** `compileFilter` */
    method CompileFilter(n: Node, f: Option<Frame>) returns (status: Status, g: Option<Frame>)
      requires n.Filter?
      modifies this
      ensures Step(status, g, St()) == GenFilter(n, f, old(St()))
      decreases n, 1
    {
      var ok := AssertType(n.callee, ["Symbol"]);
      SymbolKind(n.callee);
      if !ok {
        return Failed(InvalidType(KindName(n.callee))), f;
      }
      Emit("env.getFilter(\"" + n.callee.name + "\")");
      var args, kwargs := CollectArgs(n);
      ArgsBelow(n);
      status, g := EmitCallArgs(n, args, f, "(", ")");
    }

    /** `compileSet`: the value is compiled with no frame, as written. */
    method CompileSet(n: Node, f: Option<Frame>) returns (status: Status, g: Option<Frame>)
      requires n.Set?
      modifies this
      ensures Step(status, g, St()) == GenSet(n, f, old(St()))
      decreases n, 1
    {
      var val := TmpId();
      Emit("var " + val + " = ");
      status, g := CompileExpression(n.value, None);
      if status.Failed? {
        return status, f;
      }
      EmitLine(";");
      ghost var s1 := St();
      var i := 0;
      while i < |n.targets|
        invariant 0 <= i <= |n.targets|
        invariant SetTargetsFrom(n.targets, i, val, St()) == SetTargetsFrom(n.targets, 0, val, s1)
      {
        EmitTarget(n.targets[i], val);
        i := i + 1;
      }
      return Done, f;
    }

    /** One iteration of the target loop of `compileSet`. */
    method EmitTarget(t: string, val: string)
      modifies this
      ensures St() == SetTarget(old(St()), t, val)
    {
      EmitLine(SetVariableLine(t, val));
      if !StartsWithUnderscore(t) {
        EmitLine(AddExportLine(t));
      }
    }

    /** `compileIf` */
    method CompileIf(n: Node, f: Option<Frame>) returns (status: Status, g: Option<Frame>)
      requires n.If?
      modifies this
      ensures Step(status, g, St()) == GenIf(n, f, old(St()))
      decreases n, 1
    {
      Emit("if(");
      status, g := CompileExpression(n.cond, f);
      if status.Failed? {
        return;
      }
      EmitLine(") {");
      status, g := Compile(n.body, g);
      if status.Failed? {
        return;
      }
      if n.else_.Some? {
        EmitLine("}\nelse {");
        status, g := Compile(n.else_.value, g);
        if status.Failed? {
          return;
        }
      }
      EmitLine("}");
    }

    /** The key/value loop header of `compileFor`. */
    method EmitKeyValueLoop(i: string, arr: string, k: string, v: string, key: string, val: string)
      modifies this
      ensures St() == KeyValueLoop(old(St()), i, arr, k, v, key, val)
    {
      EmitLine("var " + i + " = -1;");
      EmitLine("for(var " + k + " in " + arr + ") {");
      EmitLine(i + "++;");
      EmitLine("var " + v + " = " + arr + "[" + k + "];");
      EmitLine("frame.set(\"" + key + "\", " + k + ");");
      EmitLine("frame.set(\"" + val + "\", " + v + ");");
      EmitLine("frame.set(\"loop.index\", " + i + " + 1);");
      EmitLine("frame.set(\"loop.index0\", " + i + ");");
      EmitLine("frame.set(\"loop.first\", " + i + " === 0);");
    }

    /** The single-name loop header of `compileFor`. */
    method EmitArrayLoop(i: string, arr: string, v: string, name: string)
      modifies this
      ensures St() == ArrayLoop(old(St()), i, arr, v, name)
    {
      EmitLine("for(var " + i + "=0; " + i + " < " + arr + ".length; " + i + "++) {");
      EmitLine("var " + v + " = " + arr + "[" + i + "];");
      EmitLine("frame.set(\"" + name + "\", " + v + ");");
      EmitLine("frame.set(\"loop.index\", " + i + " + 1);");
      EmitLine("frame.set(\"loop.index0\", " + i + ");");
      EmitLine("frame.set(\"loop.revindex\", " + arr + ".length - " + i + ");");
      EmitLine("frame.set(\"loop.revindex0\", " + arr + ".length - " + i + " - 1);");
      EmitLine("frame.set(\"loop.first\", " + i + " === 0);");
      EmitLine("frame.set(\"loop.last\", " + i + " === " + arr + ".length - 1);");
      EmitLine("frame.set(\"loop.length\", " + arr + ".length);");
    }

    /** The header of `compileFor` after the array expression: the loop variables and the loop. */
    method EmitLoopTargets(target: Node, inner: Frame, i: string, arr: string) returns (status: Status, g: Option<Frame>)
      modifies this
      ensures Step(status, g, St()) == LoopTargets(target, inner, i, arr, old(St()))
    {
      if target.Array? {
        var k := TmpId();
        var v := TmpId();
        if |target.children| < 2 {
          return Failed(MissingLoopName), Some(inner);
        }
        var key := ValueText(target.children[0]);
        var val := ValueText(target.children[1]);
        EmitKeyValueLoop(i, arr, k, v, key, val);
        return Done, Some(inner.Set(key, k).Set(val, v));
      } else {
        var v := TmpId();
        var name := ValueText(target);
        EmitArrayLoop(i, arr, v, name);
        return Done, Some(inner.Set(name, v));
      }
    }

    /** `compileFor`: the loop variables are bound in a pushed frame; the caller's frame is untouched. */
    method CompileFor(n: Node, f: Option<Frame>) returns (status: Status, g: Option<Frame>)
      requires n.For?
      modifies this
      ensures Step(status, g, St()) == GenFor(n, f, old(St()))
      decreases n, 1
    {
      var i := TmpId();
      var arr := TmpId();
      if f.None? {
        return Failed(UndefinedFrame), f;
      }
      var frame := f.value.Push();
      EmitLine("frame = frame.push();");
      Emit("var " + arr + " = ");
      var h;
      status, h := CompileExpression(n.arr, Some(frame));
      if status.Failed? {
        return status, f;
      }
      EmitLine(";");
      var loopFrame;
      status, loopFrame := EmitLoopTargets(n.loopVar, h.value, i, arr);
      if status.Failed? {
        return status, f;
      }
      status, h := Compile(n.body, loopFrame);
      if status.Failed? {
        return status, f;
      }
      EmitLine("}");
      EmitLine("frame = frame.pop();");
      return Done, f;
    }

    /** `macroBody`: returns the macro's own frame. */
    method MacroBody(n: Node, f: Option<Frame>) returns (status: Status, g: Option<Frame>)
      requires n.Macro?
      modifies this
      ensures Step(status, g, St()) == GenMacroBody(n, f, old(St()))
      decreases n, 0
    {
      if f.None? {
        return Failed(UndefinedFrame), f;
      }
      var frame := f.value.Push();
      EmitLine("frame = frame.push();");
      ghost var start := frame;
      var args: seq<string> := [];
      var i := 0;
      while i < |n.params|
        invariant 0 <= i <= |n.params|
        invariant args == ParamIds(n.params[..i]) && frame == BindParams(start, n.params[..i])
        invariant St() == old(St()).EmitLine("frame = frame.push();")
      {
        assert n.params[..i + 1][..i] == n.params[..i];
        var name := n.params[i].name;
        args := args + [LocalName(name)];
        frame := frame.Set(name, LocalName(name));
        i := i + 1;
      }
      assert n.params[..i] == n.params;
      EmitLine("var macro = function(" + Join(args, ", ") + ") {");
      var oldBuffer := buffer;
      buffer := Some("macroOutput");
      EmitLine("var " + St().BufferName() + "= \"\";");
      status, g := Compile(n.body, Some(frame));
      if status.Failed? {
        return;
      }
      EmitLine("return " + St().BufferName() + ";");
      EmitLine("};");
      buffer := oldBuffer;
      EmitLine("frame = frame.pop();");
    }

    /** `macroDef` */
    method MacroDef(n: Node, f: Option<Frame>) returns (status: Status, g: Option<Frame>)
      requires n.Macro?
      modifies this
      ensures Step(status, g, St()) == GenMacroDef(n, f, old(St()))
      decreases n, 0, 1
    {
      Emit("runtime.wrapMacro(macro, \"" + n.name + "\", " + "[");
      ghost var s1 := St();
      g := f;
      var i := 0;
      while i < |n.params|
        invariant 0 <= i <= |n.params|
        invariant GenDefaultsFrom(n, i, g, St()) == GenDefaultsFrom(n, 0, f, s1)
      {
        ghost var s0, g0 := St(), g;
        status, g := ParamEntry(n, n.params[i], g);
        if status.Failed? {
          return;
        }
        if i != |n.params| - 1 {
          Emit(", ");
        }
        assert GenDefaultsFrom(n, i, g0, s0) == GenDefaultsFrom(n, i + 1, g, St());
        i := i + 1;
      }
      EmitLine("], false, false, false);");
      status := Done;
    }

    /** One entry of the parameter list of `macroDef`. */
    method ParamEntry(n: Node, p: Param, f: Option<Frame>) returns (status: Status, g: Option<Frame>)
      requires n.Macro? && p in n.params
      modifies this
      ensures Step(status, g, St()) == GenParamEntry(n, p, f, old(St()))
      decreases n, 0, 0
    {
      Emit("[\"" + p.name + "\", ");
      if p.default.Some? {
        status, g := Compile(p.default.value, f);
        if status.Failed? {
          return;
        }
      } else {
        Emit("null");
        g := f;
      }
      Emit("]");
      status := Done;
    }

    /** `compileMacro` */
    method CompileMacro(n: Node, f: Option<Frame>) returns (status: Status, g: Option<Frame>)
      requires n.Macro?
      modifies this
      ensures Step(status, g, St()) == GenMacro(n, f, old(St()))
      decreases n, 1
    {
      var macroFrame;
      status, macroFrame := MacroBody(n, f);
      if status.Failed? {
        return status, f;
      }
      var name := n.name;
      Emit("var " + LocalName(name) + " = ");
      status, macroFrame := MacroDef(n, macroFrame);
      if status.Failed? {
        return status, f;
      }
      g := Some(f.value.Set(name, LocalName(name)));
      if !isChild {
        if !StartsWithUnderscore(name) {
          EmitLine(AddExportLine(name));
        }
        EmitLine(SetVariableLine(name, LocalName(name)));
      }
    }

    /** `compileImport` */
    method CompileImport(n: Node, f: Option<Frame>) returns (status: Status, g: Option<Frame>)
      requires n.Import?
      modifies this
      ensures Step(status, g, St()) == GenImport(n, f, old(St()))
      decreases n, 1
    {
      Emit("var " + LocalName(n.binding) + " = env.getTemplate(");
      status, g := Compile(n.template, f);
      if status.Failed? {
        return;
      }
      EmitLine(").getModule();");
      if g.None? {
        return Failed(UndefinedFrame), g;
      }
      g := Some(g.value.Set(n.binding, LocalName(n.binding)));
      if !isChild {
        EmitLine(SetVariableLine(n.binding, LocalName(n.binding)));
      }
    }

    /** `compileFromImport` */
    method CompileFromImport(n: Node, f: Option<Frame>) returns (status: Status, g: Option<Frame>)
      requires n.FromImport?
      modifies this
      ensures Step(status, g, St()) == GenFromImport(n, f, old(St()))
      decreases n, 1
    {
      Emit("var includedTemplate = env.getTemplate(");
      status, g := Compile(n.template, f);
      if status.Failed? {
        return;
      }
      EmitLine(").getModule();");
      ghost var g1, s1 := g, St();
      var i := 0;
      while i < |n.names|
        invariant 0 <= i <= |n.names|
        invariant ImportNamesFrom(n.names, i, g, St()) == ImportNamesFrom(n.names, 0, g1, s1)
      {
        status, g := ImportName(n.names[i], g);
        if status.Failed? {
          return;
        }
        i := i + 1;
      }
      status := Done;
    }

    /** One iteration of the loop of `compileFromImport`. */
    method ImportName(item: ImportName, f: Option<Frame>) returns (status: Status, g: Option<Frame>)
      modifies this
      ensures Step(status, g, St()) == ImportOne(item, f, old(St()))
    {
      var name := item.name;
      var alias := name;
      if item.alias.Some? {
        alias := item.alias.value;
      }
      EmitGuardedImport(name, alias);
      if f.None? {
        return Failed(UndefinedFrame), f;
      }
      g := Some(f.value.Set(alias, LocalName(alias)));
      if !isChild {
        EmitLine(SetVariableLine(alias, LocalName(alias)));
      }
      status := Done;
    }

    /** The lines of `compileFromImport` that copy one exported name into a local. */
    method EmitGuardedImport(name: string, alias: string)
      modifies this
      ensures St() == GuardedImport(old(St()), name, alias)
    {
      EmitLine("if(includedTemplate.hasOwnProperty(\"" + name + "\")) {");
      EmitLine("var " + LocalName(alias) + " = includedTemplate." + name + ";");
      EmitLine("} else {");
      EmitLine("// Add runtime error here");
      EmitLine("}");
    }

    /** `compileBlock` */
    method CompileBlock(name: string)
      modifies this
      ensures St() == old(St()).EmitLine(BlockCall(old(St()), name))
    {
      EmitLine(BlockCall(St(), name));
    }

    /** `compileExtends` */
    method CompileExtends(n: Node, f: Option<Frame>) returns (status: Status, g: Option<Frame>)
      requires n.Extends?
      modifies this
      ensures Step(status, g, St()) == GenExtends(n, f, old(St()))
      decreases n, 1
    {
      if isChild {
        return Failed(MultipleExtends), f;
      }
      Emit("var parentTemplate = env.getTemplate(");
      status, g := CompileExpression(n.template, f);
      if status.Failed? {
        return;
      }
      EmitLine(", true);");
      var k := TmpId();
      EmitLine("for(var " + k + " in parentTemplate.blocks) {");
      EmitLine("context.addBlock(" + k + ", parentTemplate.blocks[" + k + "]);");
      EmitLine("}");
      isChild := true;
    }

    /** `compileInclude` */
    method CompileInclude(n: Node, f: Option<Frame>) returns (status: Status, g: Option<Frame>)
      requires n.Include?
      modifies this
      ensures Step(status, g, St()) == GenInclude(n, f, old(St()))
      decreases n, 1
    {
      Emit("var includeTemplate = env.getTemplate(");
      status, g := CompileExpression(n.template, f);
      if status.Failed? {
        return;
      }
      EmitLine(");");
      EmitLine(St().BufferName() + " += includeTemplate.render(" + "context.getVariables(), frame);");
    }

    /** `compileOutput` */
    method CompileOutput(n: Node, f: Option<Frame>) returns (status: Status, g: Option<Frame>)
      requires n.Output?
      modifies this
      ensures Step(status, g, St()) == GenOutput(n, f, old(St()))
      decreases n, 1
    {
      Emit(St().BufferName() + " += ");
      status, g := CompileChildren(n, f);
      if status.Failed? {
        return;
      }
      Emit(";\n");
    }

    /**
     * `compileRoot`.  The source pushes the block's frame and then binds `super` in the root
     * frame the child shares; here `super` is bound first and the child pushed on the result,
     * which is the same chain.
     */
    method CompileRoot(n: Node, f: Option<Frame>) returns (status: Status, g: Option<Frame>)
      requires n.Root?
      modifies this
      ensures Step(status, g, St()) == GenRoot(n, f, old(St()))
      decreases n, 1
    {
      if f.Some? {
        return Failed(RootHasFrame), f;
      }
      EmitFuncBegin("root");
      var rf;
      status, rf := CompileChildren(n, Some(NewFrame()));
      if status.Failed? {
        return status, f;
      }
      if isChild {
        EmitLine(Delegation);
      }
      EmitFuncEnd(isChild);

      var blocks := FindBlocks(n);
      status := CompileBlocks(n, blocks, rf.value);
      if status.Failed? {
        return status, f;
      }
      EmitLine("return {");
      EmitBlockTable(blocks);
      EmitLine("root: root\n};");
      return Done, f;
    }

    /** The block loop of `compileRoot`: one function per block, all in the root frame. */
    method CompileBlocks(n: Node, blocks: seq<Node>, rf: Frame) returns (status: Status)
      requires n.Root?
      requires forall b :: b in blocks ==> b.Block? && (b == n || b < n)
      modifies this
      ensures status == GenBlocksFrom(n, blocks, 0, rf, old(St())).status
      ensures St() == GenBlocksFrom(n, blocks, 0, rf, old(St())).st
      decreases n, 0, |blocks| + 2
    {
      var frame := rf;
      ghost var s1 := St();
      var i := 0;
      while i < |blocks|
        invariant 0 <= i <= |blocks|
        invariant GenBlocksFrom(n, blocks, i, frame, St()) == GenBlocksFrom(n, blocks, 0, rf, s1)
      {
        assert blocks[i] in blocks;
        var rootFrame;
        status, rootFrame := CompileBlockFunction(n, blocks[i], frame);
        if status.Failed? {
          return;
        }
        frame := rootFrame.value;
        i := i + 1;
      }
      status := Done;
    }

    /** The entry-point table of `compileRoot`: `b_<name>: b_<name>,` per block. */
    method EmitBlockTable(blocks: seq<Node>)
      requires forall b :: b in blocks ==> b.Block?
      modifies this
      ensures St() == BlockTableFrom(blocks, 0, old(St()))
    {
      ghost var s1 := St();
      var i := 0;
      while i < |blocks|
        invariant 0 <= i <= |blocks|
        invariant BlockTableFrom(blocks, i, St()) == BlockTableFrom(blocks, 0, s1)
      {
        assert blocks[i] in blocks;
        EmitLine(TableEntry(blocks[i].name));
        i := i + 1;
      }
    }

    /** One iteration of the block loop of `compileRoot`: the `b_<name>` function. */
    method CompileBlockFunction(n: Node, b: Node, rf: Frame) returns (status: Status, g: Option<Frame>)
      requires b.Block? && b < n
      modifies this
      ensures Step(status, g, St()) == GenBlockFunction(n, b, rf, old(St()))
      decreases n, 0, 0
    {
      EmitFuncBegin("b_" + b.name);
      EmitLine("var l_super = context.getSuper(env, " + "\"" + b.name + "\", " + "b_" + b.name + ", " + "runtime);");
      var outer := rf.Set("super", "l_super");
      var inner;
      status, inner := Compile(b.body, Some(outer.Push()));
      g := Some(outer);
      if status.Failed? {
        return;
      }
      EmitFuncEnd(false);
    }
  }

  /** The opening lines of every compiled template: the header of `root` and its buffer. */
  const RootPrologue: string := FuncHeader("root") + "\n" + ("var " + "output" + " = \"\";" + "\n")

  /**
   * What the exported `compile` produces for a parsed template: the status and the
   * concatenated code, which for a template opens with the `root` function.
   */
  function CompileTemplate(tree: Node): (r: (Status, string))
    ensures tree.Root? ==> RootPrologue <= r.1
  {
    var step := Gen(tree, None, Initial);
    if tree.Root? then
      RootFunctionFirst(tree);
      JoinPrefix(step.st.code, 2);
      (step.status, Join(step.st.code, ""))
    else (step.status, Join(step.st.code, ""))
  }

  /** The first two fragments of a compiled template are the header of `root` and its buffer. */
  lemma RootFunctionFirst(tree: Node)
    requires tree.Root?
    ensures var code := Gen(tree, None, Initial).st.code;
      |code| >= 2 && Join(code[..2], "") == RootPrologue
  {
    var s0 := Initial.FuncBegin("root");
    var h0, h1 := FuncHeader("root") + "\n", "var " + "output" + " = \"\";" + "\n";
    assert s0.code == [h0, h1];
    assert Gen(tree, None, Initial) == GenStatement(tree, None, Initial) == GenDefinition(tree, None, Initial) == GenRoot(tree, None, Initial);
    var rf := GenRootFunction(tree, Initial);
    assert s0.code <= rf.st.code;
    var code := Gen(tree, None, Initial).st.code;
    assert rf.st.code <= code;
    assert code[..2] == [h0, h1];
    assert Join([h0, h1], "") == h0 + h1;
  }

  /** The exported `compile`, given the tree the parser produced. */
  method CompileTree(tree: Node) returns (status: Status, code: string)
    ensures (status, code) == CompileTemplate(tree)
  {
    var c := new Compiler();
    var frame;
    status, frame := c.Compile(tree, None);
    code := c.GetCode();
  }
}
