# A verified model of the nunjucks template compiler

nunjucks compiles a parsed template tree into JavaScript source text. The `Compiler`
class of `src/compiler.js` does the work. It walks the tree with one handler per node kind
and appends code fragments to a buffer. Along the way it draws numbered temporaries
(`t_1`, `t_2`, …) and tracks the name of the current output buffer. It also tracks whether
the template extends another one (a *child* template). A compile-time `Frame` maps template
names to the JavaScript identifiers they were bound to.

The project has three layers:

- **`CodeGen`** (`codegen.dfy`) is the specification. It has one pure function per handler,
  in state-passing style over the four fields of the class. It returns the new fields, the
  frame the caller holds afterwards and a status. A thrown `Error` becomes `Failed(...)`.
  Code emitted before the throw stays in the buffer, as it does in the class.
- **`TemplateCompiler`** (`compiler.dfy`) is the class itself. `Compiler` has the fields
  `codebuf`, `lastId`, `buffer` and `isChild`, and one method per handler. Each method is
  proved to leave the object, and to hand back the frame, exactly as its `CodeGen` function
  says.
- **`CompilerProperties`** (`properties.dfy`) proves what the compiler guarantees about the
  code it emits.
- **`EmittedCode`** (`emitted.dfy`) states, for every expression handler, `compileIf`,
  `macroDef`, `compileInclude` and `compileOutput`, the exact fragments the handler emits
  when its operands are literals.

Supporting modules:

- `Frames` is the compile-time frame as a value with a parent chain.
- `Text` holds decimal printing, temporary names, the escaping chain of `compileLiteral`,
  and `join("")`.
- `Ast` holds the syntax tree, the node kind names, the split of call arguments and
  `findAll(Block)`.
- `Wrappers` holds `Option`.

The model follows the code as written, including where handlers disagree with each other:

- `compileMacro` (`src/compiler.js:442`), `compileImport` (`:456`) and `compileFromImport`
  (`:483`) emit their `setVariable` line only when `isChild` is false. `compileSet`
  (`:314-321`) has no such test: it publishes every target with `setVariable`, and exports
  it, in a child template too.
- `compileSet` compiles its value with no frame (`_compileExpression(node.value)`). A symbol
  in the value of a `set` therefore fails.
- `compilePair` tests `typeof node.value` on the pair rather than on the key. Every key that
  is not a symbol is refused, string literals included.
- `_emitCallKwargs` emits no separator between keyword entries. It pushes the key's raw
  `value` as a fragment, so a key node with no `value` field adds nothing once `getCode`
  joins the fragments; where a name is concatenated into a string instead, the same node
  reads `undefined`.
- `compileLiteral` does not escape backslashes, so a string with a backslash does not read
  back as itself.

## Model

| member | source | states |
|---|---|---|
| TemplateCompiler.Compiler.constructor | src/compiler.js:29-34 | the fields start empty: no code, counter 0, no buffer, not a child |
| TemplateCompiler.Compiler.Emit | src/compiler.js:36-38 | exactly one fragment is appended; nothing else changes |
| TemplateCompiler.Compiler.EmitLine | src/compiler.js:40-42 | the fragment is appended with a newline; nothing else changes |
| TemplateCompiler.Compiler.EmitFuncBegin | src/compiler.js:44-48 | the buffer becomes `output`; the function header and the buffer declaration are appended |
| TemplateCompiler.Compiler.EmitFuncEnd | src/compiler.js:50-57 | `return <buffer>;` is appended unless `noReturn`, then `}`; the buffer is cleared |
| CodeGen.State.FuncBegin | src/compiler.js:44-48 | the buffer becomes `output` and exactly the function header and the buffer declaration are appended; counter and child flag are kept |
| CodeGen.State.FuncEnd | src/compiler.js:50-57 | `return <buffer>;` unless `noReturn`, then `}` are appended and the buffer is cleared; counter and child flag are kept |
| TemplateCompiler.Compiler.TmpId | src/compiler.js:59-62 | the counter goes up by one and the name returned is `t_` followed by the new counter |
| CodeGen.State.Next | src/compiler.js:59-62 | the counter goes up by one; code, buffer and child flag are kept |
| Text.TmpName | src/compiler.js:61 | the name is `t_` followed by the decimal text of the counter |
| Text.TmpNameInjective | src/compiler.js:59-62 | different counters give different temporary names |
| Text.NatToStringInjective | src/compiler.js:59-62 | the decimal printing of the counter is injective |
| Text.DecimalRoundTrip | src/compiler.js:59-62 | the decimal printing of the counter reads back as the counter |
| CompilerProperties.TemporariesAreFresh | src/compiler.js:59-62 | after compiling any node, the next temporary differs from every temporary drawn before |
| TemplateCompiler.Compiler.CompileChildren | src/compiler.js:64-69 | the children are compiled in order in the same frame, stopping at the first failure, as `GenSeqFrom` says |
| CodeGen.GenSeqFrom | src/compiler.js:64-83 | the code only grows, the counter never goes back, the child flag is never cleared and the frame keeps its parent chain |
| TemplateCompiler.Compiler.CompileAggregate | src/compiler.js:71-83 | open character, the children separated by `,`, close character, as `GenAggregate` says |
| CodeGen.GenAggregate | src/compiler.js:71-83 | the same growth and frame invariant (`Keeps`) as every handler; exact text for literal children: `EmittedCode.AggregateOfAtoms` |
| TemplateCompiler.Compiler.CompileExpression | src/compiler.js:85-100 | a node of a listed kind is compiled; any other fails with `invalid type: <kind>` before emitting, as `GenExpr` says |
| CodeGen.GenExpr | src/compiler.js:85-100 | the growth and frame invariant |
| CompilerProperties.ExpressionKindsExactly | src/compiler.js:85-98 | a node is accepted in expression position if and only if it is a literal, symbol, group, array, dict, call, filter, lookup, comparison, `and`, `or` or `not` |
| CompilerProperties.ValueKindsRefused | src/compiler.js:86-98 | the kind name of a pair, an arithmetic operator, unary minus or unary plus is not among the accepted kinds |
| CompilerProperties.DefinitionKindsRefused | src/compiler.js:86-98 | the kind name of a definition (set, macro, import, from-import, block, extends, root) is not among the accepted kinds |
| CompilerProperties.ContentKindsRefused | src/compiler.js:86-98 | the kind name of a control-flow or output node is not among the accepted kinds |
| CompilerProperties.ArithmeticRefusedInExpressionPosition | src/compiler.js:85-115 | an arithmetic, unary minus or unary plus node in expression position fails with `invalid type: <kind>` and emits nothing |
| TemplateCompiler.Compiler.AssertType | src/compiler.js:102-115 | the result is true if and only if the node is an instance of one of the listed kinds |
| Ast.SymbolKind | src/compiler.js:164 | a node is an instance of `Symbol` if and only if it is a symbol |
| TemplateCompiler.Compiler.CompileLiteral | src/compiler.js:121-132 | a string is emitted quoted with `"`, newline, carriage return and tab escaped; other values are emitted as their text |
| CodeGen.LitCode | src/compiler.js:121-132 | a string is emitted between `"` characters with the escaped text inside; any other value as its text |
| Text.Escape | src/compiler.js:123-126 | the per-character escape never shortens the text and leaves text without `"`, newline, carriage return or tab unchanged |
| Text.ReplaceAll | src/compiler.js:123-126 | a global `replace` of one character leaves only other characters of the input or characters of the replacement, and changes nothing when the character is absent |
| Text.ReplaceAllAppend | src/compiler.js:123-126 | a global replace distributes over concatenation |
| Text.EscapeAsWritten | src/compiler.js:123-126 | the escaped text contains no raw newline, carriage return or tab |
| Text.EscapeAsWrittenAppend | src/compiler.js:123-126 | the four-step replace chain distributes over concatenation |
| Text.EscapeAsWrittenOne | src/compiler.js:123-126 | on one character, the chain is the per-character escape |
| Text.EscapeAsWrittenIsCharwise | src/compiler.js:123-126 | the chain of four replaces equals escaping each character on its own |
| Text.EscapeChar | src/compiler.js:123-126 | a character other than `"`, newline, carriage return and tab is left alone |
| Text.UnescapeEscapeChar | src/compiler.js:123-126 | reading back an escaped non-backslash character gives the character |
| Text.EscapeRoundTrip | src/compiler.js:123-126 | for a string with no backslash, reading back the escaped text gives the string |
| Text.BackslashNotEscaped | src/compiler.js:123-126 | the two characters `\n` are emitted unchanged and read back as a newline |
| CompilerProperties.StringLiteralReadsBack | src/compiler.js:121-128 | a string literal is emitted between quotes, and its text reads back as the original when it has no backslash |
| TemplateCompiler.Compiler.CompileSymbol | src/compiler.js:134-146 | a name bound in the frame to a non-empty identifier emits that identifier, otherwise the context/frame lookup; with no frame it fails, as `GenSymbol` says |
| CodeGen.GenSymbol | src/compiler.js:134-146 | the growth and frame invariant |
| CompilerProperties.BoundSymbolCompilesToItsBinding | src/compiler.js:134-140 | a name compiles to the identifier it was bound to, in the binding frame and through a pushed frame |
| CompilerProperties.UnboundSymbolIsLookedUp | src/compiler.js:141-145 | a name with no binding compiles to the render-time lookup, context first |
| CodeGen.FallbackLookup | src/compiler.js:142-144 | the fallback lookup text is never a bound identifier `l_<name>` nor a temporary `t_<n>` |
| Frames.Frame.Lookup | src/compiler.js:138 | a lookup succeeds if and only if the name is bound in the frame or an ancestor; a local binding wins; otherwise a pushed frame answers as its parent does and an outermost frame answers nothing |
| Frames.Frame.Set | src/compiler.js:356-357 | binding a name changes only the local bindings; parent and depth are kept |
| Frames.Frame.Push | src/compiler.js:341 | the pushed frame is empty and its parent is the frame |
| Frames.Frame.Pop | src/compiler.js:391 | popping gives the parent |
| Frames.Frame.Parent | src/compiler.js:341 | a frame has a parent if and only if it was pushed |
| Frames.Frame.Depth | src/compiler.js:341 | a pushed frame is one deeper than its parent |
| Frames.NewFrame | src/compiler.js:537 | a new frame has no parent and no names |
| Frames.LookupAfterSet | src/compiler.js:356-357 | after binding a name, it looks up to the new identifier and other names are unaffected |
| Frames.LookupThroughPush | src/compiler.js:558-560 | a pushed frame sees every binding of its parent |
| Frames.PopAfterPush | src/compiler.js:341-391 | popping a pushed frame gives the frame back |
| TemplateCompiler.Compiler.CompilePair | src/compiler.js:160-175 | a symbol key is emitted as a literal; any other key fails; then `: ` and the value in expression position, as `GenPair` says |
| CodeGen.GenPair | src/compiler.js:160-175 | the growth and frame invariant |
| CompilerProperties.LiteralDictKeyRefused | src/compiler.js:167-170 | a dict entry whose key is a literal, even a string, fails with `Dict keys must be strings or names` |
| CodeGen.BinOpText | src/compiler.js:177-204 | every binary operator but power is emitted with a space on both sides; power gets `, ` between its operands |
| CodeGen.UnOpText | src/compiler.js:185-214 | the operator of `not`, unary minus and unary plus is one character |
| TemplateCompiler.Compiler.CompileBinary | src/compiler.js:177-204 | left, operator text, right; floor division and power are wrapped in `Math.floor(` / `Math.pow(`, as `GenBinary` says |
| CodeGen.GenBinary | src/compiler.js:177-204 | the growth and frame invariant; exact text for literal operands: `EmittedCode.BinaryOfLiterals` |
| TemplateCompiler.Compiler.CompileUnary | src/compiler.js:185-214 | the operator character, then the operand, as `GenUnary` says |
| CodeGen.GenUnary | src/compiler.js:185-214 | the growth and frame invariant; exact text for literal operands: `EmittedCode.UnaryOfLiteral` |
| TemplateCompiler.Compiler.CompileCompare | src/compiler.js:216-224 | the first expression, then per operand ` <op> ` and the operand, as `GenCompare` says |
| CodeGen.GenCompare | src/compiler.js:216-224 | the growth and frame invariant; exact text for literal operands: `EmittedCode.CompareOfLiterals` |
| CodeGen.GenOperandsFrom | src/compiler.js:219-223 | the growth and frame invariant |
| TemplateCompiler.Compiler.CompileOperand | src/compiler.js:220-222 | one operand of the comparison loop, as `GenOperand` says |
| CodeGen.GenOperand | src/compiler.js:220-222 | the growth and frame invariant |
| CodeGen.CompareText | src/compiler.js:10-17 | an operator listed in `compareOps` is emitted as itself; any other as `undefined` (for names inherited from `Object.prototype`, see Left out) |
| TemplateCompiler.Compiler.CompileLookupVal | src/compiler.js:226-233 | `(target)[key]`, both in expression position, as `GenLookupVal` says |
| CodeGen.GenLookupVal | src/compiler.js:226-233 | the growth and frame invariant; exact text for literal operands: `EmittedCode.LookupValOfLiterals` |
| TemplateCompiler.Compiler.EmitCallArgs | src/compiler.js:235-245 | open character, the arguments separated by `, `, close character, as `GenCallArgs` says |
| CodeGen.GenCallArgs | src/compiler.js:235-245 | the growth and frame invariant |
| CodeGen.GenCallArgsFrom | src/compiler.js:238-243 | the growth and frame invariant |
| CodeGen.CallArgsFromUnfold | src/compiler.js:238-243 | one turn of the argument loop: stop at a failing argument, otherwise go on with the next one |
| TemplateCompiler.Compiler.CallArg | src/compiler.js:239-242 | one argument, preceded by `, ` unless it is the first, as `GenCallArg` says |
| CodeGen.GenCallArg | src/compiler.js:239-242 | the growth and frame invariant |
| Text.Separated | src/compiler.js:238-243 | fragments with the separator written before every one but the first read, once joined, as the strings joined with the separator |
| Text.JoinSnoc | src/compiler.js:238-243 | joining with a separator: one more string adds the separator and the string |
| CompilerProperties.LiteralCompiles | src/compiler.js:121-132 | a literal compiles to its code in any frame and state |
| CompilerProperties.SeparatedStep | src/compiler.js:239-242 | one more argument adds `, ` (unless it is the first) and its code to the separated fragments |
| CompilerProperties.CallArgLiteral | src/compiler.js:239-242 | a literal argument appends `, ` unless it is the first, then its code |
| CompilerProperties.SeparatedCodesStep | src/compiler.js:238-243 | the code after argument `i` is the separated codes of the first `i + 1` arguments |
| CompilerProperties.CallArgsStep | src/compiler.js:238-243 | compiling from argument `i` is compiling from `i + 1` after argument `i`'s fragments |
| CompilerProperties.CallArgsEnd | src/compiler.js:238-243 | past the last argument the loop stops with the separated codes of all arguments |
| CompilerProperties.CallArgsFromLiterals | src/compiler.js:238-243 | from any argument on, a list of literals ends as the separated codes of all of them |
| CompilerProperties.PositionalArgumentsAreSeparated | src/compiler.js:235-245 | for any list of literal arguments: the open character, the literals' code with `, ` between consecutive ones, the close character; frame and counter unchanged |
| TemplateCompiler.Compiler.EmitCallKwargs | src/compiler.js:247-258 | `{`, then each key, `: ` and value with no separator, then `}`, as `GenKwargs` says |
| CodeGen.GenKwargs | src/compiler.js:247-258 | the growth and frame invariant |
| CodeGen.GenKwargsFrom | src/compiler.js:250-256 | the growth and frame invariant |
| CodeGen.KwargsFromUnfold | src/compiler.js:250-256 | one turn of the keyword loop: stop at a failing value, otherwise go on with the next entry |
| TemplateCompiler.Compiler.Kwarg | src/compiler.js:251-255 | one keyword entry, as `GenKwarg` says |
| CodeGen.GenKwarg | src/compiler.js:251-255 | the growth and frame invariant |
| Ast.JoinText | src/compiler.js:253 | a key node with a `value` field contributes its value text; one without contributes nothing, where concatenation would have written `undefined` |
| CompilerProperties.KwargFragments | src/compiler.js:250-256 | three fragments per keyword argument: key, `: `, value |
| CompilerProperties.KwargLiteral | src/compiler.js:251-255 | an entry with a literal value appends its key, `: ` and the literal's code |
| CompilerProperties.KwargFragmentsStep | src/compiler.js:250-256 | one more entry adds exactly its three fragments |
| CompilerProperties.KwargsStep | src/compiler.js:250-256 | compiling from entry `i` is compiling from `i + 1` after entry `i`'s fragments |
| CompilerProperties.KwargsFromLiterals | src/compiler.js:250-256 | from any entry on, literal values end as the fragments of all entries |
| CompilerProperties.KeywordArgumentsAreNotSeparated | src/compiler.js:247-258 | for any list of keyword arguments with literal values: `{`, then per argument its key, `: ` and the value's code with nothing between entries, then `}` |
| TemplateCompiler.Compiler.EmitWrapped | src/compiler.js:260-264 | the callee in expression position, between parentheses, as `GenWrapped` says |
| CodeGen.GenWrapped | src/compiler.js:260-264 | the growth and frame invariant; exact text for literal operands: `EmittedCode.WrappedSymbol` |
| TemplateCompiler.Compiler.CollectArgs | src/compiler.js:266-280 | the positional values and the keyword arguments, each in call order |
| Ast.Positional | src/compiler.js:266-280 | every positional value comes from an argument without a key, and there are no more of them than arguments (completeness and order: `ArgsCollected`, `PositionalAppend`) |
| Ast.Keyword | src/compiler.js:266-280 | every keyword argument is an argument of the call with a key, and there are no more of them than arguments (completeness and order: `ArgsCollected`, `KeywordAppend`) |
| Ast.ArgsStep | src/compiler.js:269-278 | one step of the loop adds the argument to exactly one of the two lists |
| Ast.ArgsPartition | src/compiler.js:266-280 | the two lists together have as many entries as the call has arguments |
| Ast.ArgsCollected | src/compiler.js:269-278 | no argument is lost: every argument without a key has its value among the positional values, every argument with a key is among the keyword arguments |
| Ast.ArgsSnoc | src/compiler.js:269-278 | the last argument extends the list its key selects and leaves the other alone |
| Ast.PositionalAppend | src/compiler.js:266-280 | positional values are collected in argument order: the values of `x + y` are those of `x` followed by those of `y` |
| Ast.KeywordAppend | src/compiler.js:266-280 | keyword arguments are collected in argument order: those of `x + y` are those of `x` followed by those of `y` |
| CodeGen.ArgsBelow | src/compiler.js:283-285 | the collected arguments are parts of the call node |
| TemplateCompiler.Compiler.CompileFunCall | src/compiler.js:282-296 | the callee three times around the macro test and the two call forms, as `GenFunCall` says |
| CodeGen.GenFunCall | src/compiler.js:282-296 | the growth and frame invariant; exact text for literal operands: `EmittedCode.FunCallOfLiterals` |
| TemplateCompiler.Compiler.EmitCallBranches | src/compiler.js:289-295 | the macro call with the positional list and keyword object, then the plain call, as `GenCallBranches` says |
| CodeGen.GenCallBranches | src/compiler.js:289-295 | the growth and frame invariant; exact text for literal operands: `EmittedCode.CallBranchesOfLiterals` |
| TemplateCompiler.Compiler.CompileFilter | src/compiler.js:298-305 | a filter name that is not a symbol fails; otherwise `env.getFilter("<name>")` and the positional arguments, as `GenFilter` says |
| CodeGen.GenFilter | src/compiler.js:298-305 | the growth and frame invariant |
| CompilerProperties.FilterNeedsSymbol | src/compiler.js:298-300 | a filter whose name is not a symbol fails with `invalid type: <kind>` and emits nothing |
| CompilerProperties.FilterCompiles | src/compiler.js:298-305 | a filter named by a symbol with literal positional arguments emits `env.getFilter("<name>")`, `(`, the separated codes, `)` |
| CompilerProperties.FilterUnfold | src/compiler.js:298-305 | a filter is its `getFilter` text followed by its positional arguments |
| CompilerProperties.CallArgsIgnoreNode | src/compiler.js:238-243 | the argument loop does not depend on which node the arguments came from |
| CompilerProperties.FilterIgnoresKeywordArgument | src/compiler.js:303 | adding a keyword argument to a filter changes nothing in what it compiles to |
| CompilerProperties.ExtendsInFilterKeywordIsSkipped | src/compiler.js:303 | an `extends` given as a filter's keyword argument is never compiled, so it succeeds even in a child template |
| TemplateCompiler.Compiler.CompileSet | src/compiler.js:307-322 | a fresh temporary, its value compiled with no frame, then the target lines, as `GenSet` says |
| CodeGen.GenSet | src/compiler.js:307-322 | the growth and frame invariant |
| CodeGen.SetTargetsFrom | src/compiler.js:314-321 | only code is added: counter, buffer and child flag are unchanged |
| TemplateCompiler.Compiler.EmitTarget | src/compiler.js:315-320 | the lines for one target, as `SetTarget` says |
| CodeGen.SetTarget | src/compiler.js:315-320 | only code is added |
| CompilerProperties.SetValueSeesNoFrame | src/compiler.js:311 | a `set` whose value is a name fails, because the value is compiled with no frame |
| CompilerProperties.SetTargetsAppendLines | src/compiler.js:314-321 | the target loop appends exactly the publishing lines of the targets, in order |
| CompilerProperties.SetLinesPublish | src/compiler.js:314-321 | every target gets its `setVariable` line, child template or not; a target whose name does not start with `_` gets its `addExport` line |
| CompilerProperties.SetLinesOnlyPublish | src/compiler.js:314-321 | every line of the target loop publishes some target: its `setVariable` line or its `addExport` line |
| CodeGen.SetVariableLine | src/compiler.js:316-317 | the line is a `context.setVariable` call |
| CodeGen.AddExportLine | src/compiler.js:319 | the line is a `context.addExport` call and never a `setVariable` call |
| TemplateCompiler.Compiler.CompileIf | src/compiler.js:324-336 | condition in expression position, the body, the optional else branch, `}`, as `GenIf` says |
| CodeGen.GenIf | src/compiler.js:324-336 | the growth and frame invariant; exact text for literal operands: `EmittedCode.IfOfAtoms` |
| TemplateCompiler.Compiler.CompileFor | src/compiler.js:338-392 | the loop head, the body in the pushed frame, then the loop is closed and the frame popped, as `GenFor` says |
| CodeGen.GenFor | src/compiler.js:338-392 | the growth and frame invariant |
| CodeGen.GenForHead | src/compiler.js:338-387 | on success the body's frame is pushed on the caller's frame |
| CompilerProperties.ForLeavesCallerFrame | src/compiler.js:341 | the caller's frame comes back untouched |
| TemplateCompiler.Compiler.EmitLoopTargets | src/compiler.js:349-386 | the loop variables are bound to fresh temporaries and the loop header emitted, as `LoopTargets` says |
| CodeGen.LoopTargets | src/compiler.js:349-386 | the frame keeps its parent; it fails if and only if a key/value target has fewer than two names; an array target emits the key/value header over two fresh temporaries, any other target the indexed header over one |
| TemplateCompiler.Compiler.EmitKeyValueLoop | src/compiler.js:359-367 | the key/value loop header, as `KeyValueLoop` says |
| CodeGen.KeyValueLoop | src/compiler.js:359-367 | only code is added |
| TemplateCompiler.Compiler.EmitArrayLoop | src/compiler.js:374-385 | the indexed loop header, as `ArrayLoop` says |
| CodeGen.ArrayLoop | src/compiler.js:374-385 | only code is added |
| CompilerProperties.LoopVariableBound | src/compiler.js:370-372 | the loop variable is bound to the last temporary drawn, in a frame whose parent is the caller's frame |
| CompilerProperties.KeyValueLoopBound | src/compiler.js:349-357 | the value name is bound to the last temporary and, if distinct, the key name to the one before; success needs two names |
| CompilerProperties.KeyValueHeaderIffArray | src/compiler.js:349-386 | the first line of the loop header is `var <i> = -1;` if and only if the loop target is an array |
| TemplateCompiler.Compiler.MacroBody | src/compiler.js:394-414 | a pushed frame with the parameters bound, the body compiled into `macroOutput`, the buffer restored, as `GenMacroBody` says |
| CodeGen.GenMacroBody | src/compiler.js:394-414 | on success the macro frame is pushed on the caller's frame and the buffer is restored |
| CodeGen.BindParams | src/compiler.js:399-403 | binding the parameters keeps the frame's parent |
| CodeGen.ParamIds | src/compiler.js:399-404 | one identifier per parameter, entry `j` being `l_` followed by the name of parameter `j` |
| CodeGen.LocalName | src/compiler.js:401-402 | the identifier is `l_` followed by the name |
| CompilerProperties.ParamsBoundInMacroFrame | src/compiler.js:399-403 | in the macro frame every parameter resolves to `l_<name>` |
| TemplateCompiler.Compiler.MacroDef | src/compiler.js:416-433 | the `wrapMacro` call with the parameter entries, as `GenMacroDef` says |
| CodeGen.GenMacroDef | src/compiler.js:416-433 | the growth and frame invariant; exact text for literal operands: `EmittedCode.MacroDefOfLiterals` |
| CodeGen.GenDefaultsFrom | src/compiler.js:420-431 | the growth and frame invariant |
| TemplateCompiler.Compiler.ParamEntry | src/compiler.js:421-426 | one `["name", default-or-null]` entry, as `GenParamEntry` says |
| CodeGen.GenParamEntry | src/compiler.js:421-426 | the growth and frame invariant |
| TemplateCompiler.Compiler.CompileMacro | src/compiler.js:435-448 | body, definition, binding and publication, as `GenMacro` says |
| CodeGen.GenMacro | src/compiler.js:435-448 | the growth and frame invariant |
| CompilerProperties.MacroBinding | src/compiler.js:440 | the macro's name is bound to `l_<name>` in the caller's frame |
| CompilerProperties.MacroPublishedLikeSet | src/compiler.js:442-447 | outside a child template a macro is published with the same lines as a `set` of its name; in a child template with none |
| CodeGen.Publish | src/compiler.js:442-447 | in a child template nothing is emitted; otherwise `addExport` unless the name starts with `_`, then `setVariable` with `l_<name>`; only code changes |
| TemplateCompiler.Compiler.CompileImport | src/compiler.js:450-459 | the template fetched into `l_<name>`, bound in the frame, published unless a child, as `GenImport` says |
| CodeGen.GenImport | src/compiler.js:450-459 | the growth and frame invariant (binding and publication: `ImportPublishesIffNotChild`, `ImportOfLiteral`) |
| CompilerProperties.ImportPublishesIffNotChild | src/compiler.js:450-459 | on success the binding resolves to `l_<name>`, and the last line is a `setVariable` call if and only if the template is not a child, then the one for the binding |
| CompilerProperties.ImportAfterTemplate | src/compiler.js:450-459 | after the template expression: stop at its failure, otherwise `.getModule()`, the binding and the publication |
| CompilerProperties.ImportOfLiteral | src/compiler.js:450-459 | importing a literal template name emits the fetch lines and, outside a child, the `setVariable` line, and binds the name to `l_<name>` in the caller's frame |
| CompilerProperties.ImportLiteralLines | src/compiler.js:451-458 | the emit calls of an import of a literal give exactly its lines |
| CompilerProperties.NotSetVariable | src/compiler.js:316 | a line that does not start with `c` is not a `setVariable` call |
| TemplateCompiler.Compiler.CompileFromImport | src/compiler.js:461-487 | the template fetched, then each name copied, bound and published unless a child, as `GenFromImport` says |
| CodeGen.GenFromImport | src/compiler.js:461-487 | the growth and frame invariant (binding and publication: `FromImportBindsEveryName`, `FromImportOfLiteral`) |
| CodeGen.ImportNamesFrom | src/compiler.js:466-486 | the growth and frame invariant |
| TemplateCompiler.Compiler.ImportName | src/compiler.js:467-485 | one imported name, as `ImportOne` says |
| CodeGen.ImportOne | src/compiler.js:467-485 | the growth and frame invariant (binding and publication: `ImportOneBinds`) |
| TemplateCompiler.Compiler.EmitGuardedImport | src/compiler.js:475-480 | the guarded copy lines, as `GuardedImport` says |
| CodeGen.GuardedImport | src/compiler.js:475-480 | only code is added |
| CompilerProperties.GuardedImportLines | src/compiler.js:475-480 | the guarded copy appends exactly its five lines |
| CompilerProperties.GuardedLinesSilent | src/compiler.js:475-480 | none of the guarded copy lines is a `setVariable` call |
| CompilerProperties.ImportOneLines | src/compiler.js:467-485 | one name appends its guarded copy and, outside a child, its `setVariable` line, and binds the alias |
| CompilerProperties.ImportOneBinds | src/compiler.js:467-485 | one name succeeds if and only if there is a frame; the alias is then bound to `l_<alias>`; the last line is a `setVariable` call if and only if it succeeded outside a child template, then the one for the alias |
| CompilerProperties.BoundNames | src/compiler.js:467-473 | one bound name per requested name |
| CompilerProperties.BindAllBinds | src/compiler.js:466-481 | every bound name resolves to `l_<name>`, every other name as before, and the frame keeps its parent |
| CompilerProperties.ImportLinesPublish | src/compiler.js:466-486 | in a child template none of the lines is a `setVariable` call; otherwise every bound name has its `setVariable` line |
| CompilerProperties.ImportNamesLines | src/compiler.js:466-486 | the name loop appends the lines of every name in order and binds them all |
| CompilerProperties.FromImportBindsEveryName | src/compiler.js:461-487 | on success every bound name resolves to `l_<name>`; the code ends with the lines of every name; in a child template none is a `setVariable` call, otherwise every name has its `setVariable` line |
| CompilerProperties.LinesAfter | src/compiler.js:462-464 | three fragments appended one by one are the three appended together |
| CompilerProperties.FromImportAfterTemplate | src/compiler.js:461-466 | after the template expression: stop at its failure, otherwise `.getModule()` and the name loop |
| CompilerProperties.FromImportOfLiteral | src/compiler.js:461-487 | importing names from a literal template name emits the fetch lines and the lines of every name, and binds every name |
| Wrappers.Option.GetOr | src/compiler.js:469-473 | the alias if given, the name otherwise |
| TemplateCompiler.Compiler.CompileBlock | src/compiler.js:489-492 | the line rendering the block into the current buffer |
| CodeGen.BlockCall | src/compiler.js:489-492 | the line appends to the current buffer |
| TemplateCompiler.Compiler.CompileExtends | src/compiler.js:494-511 | fails in a child template; otherwise fetches the parent, copies its blocks and becomes a child, as `GenExtends` says |
| CodeGen.GenExtends | src/compiler.js:494-511 | the growth and frame invariant |
| CompilerProperties.ExtendsOnlyOnce | src/compiler.js:494-511 | in a child template `extends` fails with nothing emitted; a successful `extends` makes the template a child |
| CompilerProperties.ExtendsDispatch | src/compiler.js:574-582 | `compile` on an `extends` node is `compileExtends` |
| CompilerProperties.SecondExtendsFails | src/compiler.js:494-511 | after a successful `extends` the template is a child, and a second `extends` then fails with `cannot extend multiple times`, emitting nothing and keeping the frame |
| CompilerProperties.SeqFromUnfold | src/compiler.js:64-69 | one turn of the children loop: stop at a failing child, otherwise go on with the next one |
| CompilerProperties.ExtendsInChildFails | src/compiler.js:64-69 | in a child template, a list of children with an `extends` among them fails |
| CompilerProperties.TwoExtendsFail | src/compiler.js:64-69 | a list of children with two `extends` among them fails |
| CompilerProperties.TemplateExtendsOnce | src/compiler.js:532-540 | a template with two top-level `extends` fails to compile |
| TemplateCompiler.Compiler.CompileInclude | src/compiler.js:513-520 | the template fetched and rendered into the current buffer, as `GenInclude` says |
| CodeGen.GenInclude | src/compiler.js:513-520 | the growth and frame invariant; exact text for literal operands: `EmittedCode.IncludeOfLiteral` |
| TemplateCompiler.Compiler.CompileOutput | src/compiler.js:526-530 | `<buffer> += `, the children, `;`, as `GenOutput` says |
| CodeGen.GenOutput | src/compiler.js:526-530 | the growth and frame invariant; exact text for literal operands: `EmittedCode.OutputOfAtoms` |
| TemplateCompiler.Compiler.CompileRoot | src/compiler.js:532-572 | refuses a frame; the root function, one function per block, the block table, as `GenRoot` says |
| CodeGen.GenRoot | src/compiler.js:532-572 | the growth and frame invariant |
| CodeGen.GenRootFunction | src/compiler.js:537-545 | on success the root frame exists; the code only grows |
| CompilerProperties.RootRefusesFrame | src/compiler.js:533-535 | the root node given a frame fails with `root node can't have frame` and emits nothing |
| CompilerProperties.RootDelegatesIffChild | src/compiler.js:539-545 | the root function ends with `}` and no buffer; its last statement renders the parent template if and only if the template is a child |
| TemplateCompiler.Compiler.CompileBlocks | src/compiler.js:548-563 | one function per block, in order, as `GenBlocksFrom` says |
| CodeGen.GenBlocksFrom | src/compiler.js:548-563 | the root frame keeps its parent; on success the buffer is cleared and the header of every block's function appears in the new code, in block order |
| TemplateCompiler.Compiler.CompileBlockFunction | src/compiler.js:549-562 | one block function, as `GenBlockFunction` says |
| CodeGen.GenBlockFunction | src/compiler.js:549-562 | the first line emitted is the header of `b_<name>`; the root frame afterwards has `super` bound to `l_super`; on success the buffer is cleared |
| CodeGen.BlockHeaders | src/compiler.js:552 | one function header per block |
| CodeGen.HeadersFrom | src/compiler.js:548-563 | block `i`'s header followed by the later headers is the header list from block `i` on |
| Text.SubsequenceCons | src/compiler.js:548-563 | an element followed, later, by a subsequence gives a longer subsequence |
| Text.SubsequencePrefix | src/compiler.js:548-563 | code emitted before keeps a subsequence |
| Text.SubsequenceSuffix | src/compiler.js:548-563 | code emitted after keeps a subsequence |
| Text.SubsequenceMembers | src/compiler.js:548-563 | every element of a subsequence occurs in the sequence |
| CompilerProperties.SubsequenceWithin | src/compiler.js:548-563 | a subsequence of a suffix of some code is a subsequence of any code that extends it |
| CompilerProperties.RootSteps | src/compiler.js:532-572 | a successful root is its root function, then the block functions, then the table |
| CompilerProperties.BlockFunctionsFollowRoot | src/compiler.js:547-563 | a compiled template contains the header of every block's function, nested blocks included, in the order they are found |
| CompilerProperties.SuperVisibleInBlockBody | src/compiler.js:558-560 | the block body, compiled in a frame pushed before `super` was set, still sees `super` |
| TemplateCompiler.Compiler.EmitBlockTable | src/compiler.js:566-570 | one table line per block, as `BlockTableFrom` says |
| CodeGen.BlockTableFrom | src/compiler.js:566-570 | the lines appended are exactly the table lines of the blocks; nothing else changes |
| CodeGen.TableLines | src/compiler.js:566-570 | one line per block, line `j` naming block `j` |
| CodeGen.TableLineOfBlock | src/compiler.js:566-570 | line `j` of the table is the entry of block `j` |
| CodeGen.TableEntry | src/compiler.js:568-569 | the entry starts with the block's function name `b_<name>` |
| CompilerProperties.TableListsExactly | src/compiler.js:565-571 | every block has an entry, and every entry is some block's |
| CompilerProperties.RootEndsWithTable | src/compiler.js:565-571 | a compiled template ends with `return {`, the table lines of all blocks found, and `root: root };` |
| CompilerProperties.EveryBlockInTable | src/compiler.js:547-571 | every block anywhere in the tree, nested ones included, has an entry in the table |
| Ast.FindBlocks | src/compiler.js:547 | every node found is a block inside the tree |
| Ast.FindBlocksFrom | src/compiler.js:547 | every node found is a block below the node |
| Ast.FindBlocksSound | src/compiler.js:547 | every node found is a block the tree contains |
| Ast.FindBlocksFromSound | src/compiler.js:547 | the same for the search over a node's children |
| Ast.FindBlocksComplete | src/compiler.js:547 | every block the tree contains is found |
| Ast.FindBlocksFromIncludes | src/compiler.js:547 | a block found under one child is found by the search over the children |
| Ast.Subnodes | src/compiler.js:547 | the nodes searched are parts of the node |
| Ast.ArgNodes | src/compiler.js:547 | the argument nodes searched come from the arguments |
| Ast.ParamNodes | src/compiler.js:547 | the parameter nodes searched are the defaults |
| Ast.OperandNodes | src/compiler.js:547 | the comparison nodes searched are the operands |
| TemplateCompiler.Compiler.Compile | src/compiler.js:574-582 | dispatch on the node kind, as `Gen` says |
| CodeGen.Gen | src/compiler.js:574-582 | the growth and frame invariant |
| TemplateCompiler.Compiler.CompileValue | src/compiler.js:574-582 | dispatch for value nodes, as `GenValue` says |
| CodeGen.GenValue | src/compiler.js:574-582 | the growth and frame invariant |
| TemplateCompiler.Compiler.CompileStatement | src/compiler.js:574-582 | dispatch for the other nodes, as `GenStatement` says |
| CodeGen.GenStatement | src/compiler.js:574-582 | the growth and frame invariant |
| TemplateCompiler.Compiler.CompileDefinition | src/compiler.js:574-582 | dispatch for defining nodes, as `GenDefinition` says |
| CodeGen.GenDefinition | src/compiler.js:574-582 | the growth and frame invariant |
| TemplateCompiler.Compiler.CompileContent | src/compiler.js:574-582 | dispatch for control flow and output; an unknown kind fails with `Cannot compile node`, as `GenContent` says |
| CodeGen.GenContent | src/compiler.js:574-582 | the growth and frame invariant; a node of a kind with no handler fails with `Cannot compile node: <typename>` and emits nothing |
| TemplateCompiler.Compiler.GetCode | src/compiler.js:584-586 | the fragments concatenated in order |
| Text.JoinAppend | src/compiler.js:584-586 | appending a fragment appends its text |
| Text.JoinPrefix | src/compiler.js:584-586 | the text of the first fragments is a prefix of the whole text |
| Text.Join | src/compiler.js:585 | the first string is a prefix of the joined text |
| TemplateCompiler.CompileTree | src/compiler.js:601-606 | a fresh compiler, the tree compiled with no frame, the code joined |
| TemplateCompiler.CompileTemplate | src/compiler.js:601-606 | the code of a compiled template starts with the header of `root` and the declaration of `output` |
| TemplateCompiler.RootFunctionFirst | src/compiler.js:539 | the first two fragments of a compiled template are the header of `root` and its buffer declaration |
| Text.NatToString | src/compiler.js:61 | at least one decimal digit, and one digit exactly below ten |
| Text.DigitChar | src/compiler.js:61 | the digit character of a value below ten |
| EmittedCode.AtomCompiles | src/compiler.js:121-132 | a literal, and template data (which `compileTemplateData` at :522-524 hands to `compileLiteral`), compile to the literal's code and nothing else, in any frame and state |
| EmittedCode.LiteralExpression | src/compiler.js:85-99 | a literal passes the kind check of `_compileExpression` and is emitted as its code |
| EmittedCode.SymbolCode | src/compiler.js:134-146 | a name bound in the frame to a non-empty identifier reads as that identifier; an unbound name reads as the `context.lookup` / `frame.lookup` fallback |
| EmittedCode.SymbolExpression | src/compiler.js:134-146 | a symbol passes the kind check and is emitted as `SymbolCode`, keeping the frame |
| EmittedCode.SeqFromAtoms | src/compiler.js:64-83 | the children loop over literal children writes their codes in order, `,`-separated in an aggregate and bare otherwise |
| EmittedCode.AggregateOfAtoms | src/compiler.js:71-83 | an aggregate of literal children emits the open character, the codes separated by `,`, the close character, and succeeds with the frame unchanged |
| EmittedCode.OutputOfAtoms | src/compiler.js:526-530 | an output of literal children emits `<buffer> += `, the codes with no separator, then `;` and a newline |
| EmittedCode.BinaryFragments | src/compiler.js:177-204 | floor division reads `Math.floor(l / r)`, power `Math.pow(l, r)`, any other operator `l <op> r` |
| EmittedCode.MathCallOfLiterals | src/compiler.js:190-204 | floor division and power on literals emit `Math.floor(` / `Math.pow(`, the left code, ` / ` or `, `, the right code, `)` |
| EmittedCode.InfixOfLiterals | src/compiler.js:20-26 | `binOpEmitter` on literals emits the left code, the operator text, the right code |
| EmittedCode.BinaryOfLiterals | src/compiler.js:177-204 | every binary operator on literals emits exactly `BinaryFragments` and succeeds |
| EmittedCode.UnaryOfLiteral | src/compiler.js:185-214 | `!`, `-`, `+` on a literal emit the operator character, then the literal's code |
| EmittedCode.OperandFragments | src/compiler.js:216-224 | two fragments per operand: ` <op> ` and the operand's code |
| EmittedCode.OperandLiteral | src/compiler.js:219-222 | one turn of the comparison loop on a literal operand emits ` <op> ` and its code |
| EmittedCode.OperandsFromLiterals | src/compiler.js:219-222 | the comparison loop over literal operands emits their fragments in operand order |
| EmittedCode.CompareOfLiterals | src/compiler.js:216-224 | a comparison of literals emits the first code, then ` <op> ` and the code of each operand, in order |
| EmittedCode.LookupValOfLiterals | src/compiler.js:226-233 | a lookup of literals emits `(`, the target's code, `)`, `[`, the key's code, `]` |
| EmittedCode.WrappedSymbol | src/compiler.js:260-264 | a named callee is wrapped as `(`, its `SymbolCode`, `)` |
| EmittedCode.WrappedLiteral | src/compiler.js:260-264 | a literal callee is wrapped as `(`, its code, `)` |
| EmittedCode.CallBranchesOfLiterals | src/compiler.js:289-295 | with literal arguments, `(`, the positional list in `[ ]` separated by `, `, `, `, the keyword object, `) : `, the wrapped callee, the positional arguments in `( )` |
| EmittedCode.MacroTestOfSymbol | src/compiler.js:285-288 | the `isMacro` test: the wrapped callee, `.isMacro ? `, the wrapped callee again |
| EmittedCode.FunCallOfLiterals | src/compiler.js:282-296 | a call of a named callee with literal arguments emits exactly `CallFragments`: the `isMacro` test and both call forms, in order |
| EmittedCode.IfOfAtoms | src/compiler.js:324-336 | `if(`, the condition, `) {`, the body, then `}` / `else {` and the else branch exactly when there is one, then `}` |
| EmittedCode.IncludeOfLiteral | src/compiler.js:513-520 | the fetch line with the template's code, then the line rendering it into the current buffer |
| EmittedCode.EntryFragments | src/compiler.js:424-426 | a parameter's entry is `["<name>", `, its default's code or `null`, `]` |
| EmittedCode.EntriesFragments | src/compiler.js:420-431 | one entry per parameter, in parameter order, with `, ` between entries and not after the last |
| EmittedCode.ParamEntryLiteral | src/compiler.js:424-426 | a parameter with a literal default or none emits exactly its entry |
| EmittedCode.DefaultsFromLiterals | src/compiler.js:420-431 | the parameter loop emits the entries from parameter `i` on |
| EmittedCode.MacroDefOfLiterals | src/compiler.js:416-433 | the `wrapMacro` call: name, `[`, one entry per parameter in order, `], false, false, false);` |
| EmittedCode.ExtendsOfLiteral | src/compiler.js:494-510 | an `extends` outside a child succeeds, keeps the frame and makes the template a child |
| EmittedCode.FirstExtendsArgument | src/compiler.js:235-245 | an `extends` as the one argument of the macro call's list compiles and makes the template a child |
| EmittedCode.SecondExtendsArgument | src/compiler.js:235-245 | the same argument in the plain call's list, now in a child, fails with `cannot extend multiple times` |
| EmittedCode.ExtendsBranchFails | src/compiler.js:289-295 | the two call forms with a single `extends` argument fail |
| EmittedCode.ExtendsAsCallArgumentFails | src/compiler.js:282-296 | a call whose single positional argument is an `extends` fails with `cannot extend multiple times` outside a child, because the arguments are compiled twice |
| EmittedCode.NoKeywordArguments | src/compiler.js:247-258 | no keyword arguments emit `{}` |
| EmittedCode.SingleArgument | src/compiler.js:266-280 | one keyless argument is the only positional argument and there are no keyword arguments |

## Left out

- The parser: `compile(src)` parses the source first. `CompileTree` takes the parsed tree.
  The parser is not part of this model.
- The node class hierarchy: `./nodes` is not part of this model. `instanceof` is modelled
  as an exact match on the node kind. A subclass relation between kinds is not captured.
  The order in which `findAll` visits a node's fields (`Ast.Subnodes`) is assumed, not taken
  from `./nodes`.
- `Frame` from `./runtime` is not part of this model. It is modelled as a value with a
  parent chain and a map of local bindings.
- `lib.toArray` is not part of this model. `assertType` receives its kinds as a list.
- Numbers: literals are strings, integers or booleans. Floating-point literals and their
  `toString` are not modelled. Integer literals are printed as plain decimal digits, which
  matches `toString` only within JavaScript's exact-integer range (below 2^53 in magnitude);
  from 1e21 on `toString` switches to exponential form.
- The commented-out debugging driver at the end of the file and `console.log`.
- What the emitted JavaScript does when run (`context`, `env`, `runtime`) is not modelled.
  Only the text of the code is.
- Errors thrown by the JavaScript engine: a missing frame and a loop target with too few
  names become the failures `UndefinedFrame` and `MissingLoopName`. Their message texts are
  not the engine's exact wording.
- `AssertType` returns whether the node matched. The throw that follows a mismatch is
  modelled in `CompileExpression` and `CompileFilter`.
- StringLiteralReadsBack: holds only for text without a backslash, because
  `compileLiteral` does not escape backslashes (`Text.BackslashNotEscaped` shows the
  failing case).
- GenContent: `compile` looks up the handler named `"compile" + node.typename`. An unknown
  node here stands for a typename with no handler, and fails with `Cannot compile node`. A
  node of some other class whose typename names a handler, and the empty typename (which
  looks up `compile` itself), are not modelled.
- PositionalArgumentsAreSeparated: the exact text is stated for lists of literal arguments.
  For other arguments the loop is stated one turn at a time (`CodeGen.CallArgsFromUnfold`),
  each argument adding what `Gen` gives for it.
- KeywordArgumentsAreNotSeparated: the exact text is stated for literal values. For other
  values the loop is stated one turn at a time (`CodeGen.KwargsFromUnfold`).
- FilterCompiles: the exact text is stated for literal positional arguments; a filter with
  other arguments is stated by `FilterUnfold` as its `getFilter` text followed by the
  argument loop.
- TemplateExtendsOnce: proved for a template with two top-level `extends`, not for every
  tree that extends once or not at all. `compileFunCall` compiles its positional arguments
  twice, so a single `extends` given as a call argument fails
  (`EmittedCode.ExtendsAsCallArgumentFails`). The parser, which is not part of this model,
  decides whether such a tree can arise.
- CompareText: `compareOps[op]` on a name inherited from `Object.prototype` (`toString`,
  `constructor`, `hasOwnProperty`, `__proto__`, …) reads that property, which concatenates
  as its own text. The model emits `undefined` for every unlisted operator.
- GenAggregate: its own contract is the growth and frame invariant. The exact text is stated
  for literal and template-data children by `EmittedCode.AggregateOfAtoms`; other children
  add what `Gen` gives for them (`CompilerProperties.SeqFromUnfold`).
- GenBinary: its own contract is the growth and frame invariant. The exact text is stated for
  literal operands by `EmittedCode.BinaryOfLiterals`.
- GenUnary: its own contract is the growth and frame invariant. The exact text is stated for a
  literal operand by `EmittedCode.UnaryOfLiteral`.
- GenCompare: its own contract is the growth and frame invariant. The exact text is stated for
  literal operands by `EmittedCode.CompareOfLiterals`.
- GenLookupVal: its own contract is the growth and frame invariant. The exact text is stated
  for a literal target and key by `EmittedCode.LookupValOfLiterals`.
- GenWrapped: its own contract is the growth and frame invariant. The exact text is stated for
  a named or literal callee by `EmittedCode.WrappedSymbol` and `EmittedCode.WrappedLiteral`.
- GenFunCall: its own contract is the growth and frame invariant. The exact text is stated for
  a named callee with literal arguments by `EmittedCode.FunCallOfLiterals`.
- GenIf: its own contract is the growth and frame invariant. The exact text is stated for a
  literal condition and literal or template-data branches by `EmittedCode.IfOfAtoms`.
- GenMacroDef: its own contract is the growth and frame invariant. The exact text is stated
  for parameters with literal defaults or none by `EmittedCode.MacroDefOfLiterals`.
- GenInclude: its own contract is the growth and frame invariant. The exact text is stated
  for a literal template name by `EmittedCode.IncludeOfLiteral`.
- GenOutput: its own contract is the growth and frame invariant. The exact text is stated for
  literal and template-data children by `EmittedCode.OutputOfAtoms`.
