# then-pug, modelled in Dafny

then-pug compiles Jade/Pug templates into JavaScript whose output may be asynchronous. This project
models its three compilers and proves what their generated code promises.

- **The promise compiler** (`compiler.js`), module `AsyncCompiler`:
  - `buffer` keeps one instruction slot per run of buffered text. It rewrites the trailing slot
    while text keeps coming and opens a new slot after a line of code.
  - `compile` starts from the prelude, visits the tree and joins the slots with newlines.
  - `visitFilter` handles four cases:
    - `cdata` sections;
    - the error for an unknown filter;
    - filters rendered at compile time, when the attributes are constant;
    - filters rendered at run time.
  - `render` wraps the rendered text and escapes it.

  The compiler is a class whose methods update `buf`, `lastBuffered` and `lastBufferedIdx`. Its
  invariant ties `buf` to the coalesced sequence of everything emitted. Coalescing is proved to
  keep the output, to merge every pair of adjacent texts, and to agree with an independent
  grouping definition.
- **The generator compiler** (`lib/compiler.js`), module `GeneratorCompiler`:
  - `visitMixinBlock`;
  - `visitMixin`, for both calls and definitions, including the registry of definition ranges
    kept in `mixins`;
  - `visitEach`, which emits an indexed loop and a keyed loop, each with its own copy of the body
    and of the alternative.
- **The Babel code generator** (`packages/then-pug/lib/pug-code-gen.js`), modules `PugAst`,
  `PugCompaction`, `PugWalk` and `PugCodeGen`:
  - the `with` wrapper of `ast_with`, which binds the template's free variables;
  - the declarations that open the template;
  - `ast_buffer` and `ast_return`;
  - the constructor flags;
  - the compaction of `ast_postprocess`. It replaces every run of at most 101 consecutive
    `buf.push(x)` statements by one push of the joined fragments. The model keeps the source's
    loops and in-place splicing, and proves them equal to a specification function.

    The source folds the fragments with `+` and no initial value (pug-code-gen.js:169-171). That
    fold can add numbers instead of concatenating them (first row of "## Findings"). The loops and
    the specification function therefore use the corrected fold, which starts from `""` when the
    first fragment is not a string literal. That corrected compaction is proved to keep everything
    the generated code outputs. The source's own fold is modelled beside it:
    - it builds the same push as the corrected one when the run starts with a string literal;
    - it keeps the output whenever the first pushed value is a string;
    - it changes the output on the input given in the Findings row.

`Strings` holds the string helpers: `join`, `replace` with a global regular expression, and
`substr`.

## Model

| member | source | states |
|---|---|---|
| AsyncCompiler.CoalescePreservesOutput | compiler.js:102-117 | Coalescing the emitted pieces into slots never changes the characters and code lines the generated program produces. |
| AsyncCompiler.CoalesceIsMaximal | compiler.js:106-116 | After coalescing, no two adjacent slots are both text. There are at most as many slots as pieces. The slots end in text exactly when the pieces do. |
| AsyncCompiler.CoalesceIsGroups | compiler.js:102-117 | The slot-by-slot coalescing equals an independent definition that groups each maximal run of text from the front. |
| AsyncCompiler.BufferStep | compiler.js:106-116 | Buffering text right after text rewrites only the last rendered slot, now holding the longer text. Otherwise it appends a new slot `buf.push('s');`. Either way the slots end in text. |
| AsyncCompiler.CodeSeparatesText | compiler.js:106-116 | A pushed code line closes the text slot: text buffered after it opens a new slot that follows the code line. |
| AsyncCompiler.FirstBufferOpensSlot | compiler.js:126-128 | The prelude is code, so the first text buffered opens its own slot right after the prelude. |
| AsyncCompiler.Compiler.Buffer | compiler.js:102-117 | Text after text (`lastBufferedIdx == buf.length`): the length stays the same, earlier slots are unchanged, `lastBuffered` grows by the escaped text and the last slot shows it. Otherwise one slot is appended and the index points at it. The invariant relating `buf` to the emitted pieces is kept. |
| AsyncCompiler.Compiler.Push | compiler.js:77 | A pushed code line is appended to `buf` and ends any text run. The invariant is kept. |
| AsyncCompiler.Compiler.Visit | compiler.js:129 | Replaying the base compiler's buffer and push calls adds exactly their pieces to what was emitted. `buf` stays the coalesced rendering. |
| AsyncCompiler.Compiler.Compile | compiler.js:125-131 | The emitted pieces are the prelude (with `var __indent = [];` only under pretty-printing) followed by the tree's pieces. `buf` is their coalesced rendering. The result is `buf` joined with newlines. |
| AsyncCompiler.Compiler.VisitFilter | compiler.js:58-79 | `cdata` buffers the CDATA-wrapped text. An unknown filter fails with `unknown filter ":name"` and leaves `buf` unchanged. Otherwise `filename` is set among the attributes. Constant attributes then buffer the text rendered at compile time. Other attributes push a run-time `render` call. |
| AsyncCompiler.SetAttrAssigns | compiler.js:68-71 | Assigning `filename` makes its lookup the new value and leaves every other key unchanged. A new key goes after the existing ones; an existing key keeps its place. |
| AsyncCompiler.RenderedTextFitsLiteral | compiler.js:82-92 | Rendered text never holds a `'`, and at compile time never holds a raw newline, so it fits inside `buf.push('...')`. |
| AsyncCompiler.CompileTimeRenderRoundTrip | compiler.js:89-90 | Reading back the backslash escapes of compile-time rendered text gives exactly the text with only quotes entity-escaped: the escaping loses nothing. |
| AsyncCompiler.Compiler.constructor | compiler.js:40-42 | A fresh compiler keeps the host, the pretty-print flag and the file name it is given. The source's constructor only calls the base constructor, and `buf` is first set by `compile` (compiler.js:126). The empty buffer and empty emission history are the model's own starting state. |
| GeneratorCompiler.RegistryEntryOfName | lib/compiler.js:26-29 | A dynamic name `#{e}` indexes `jade_mixins` with the expression `e` exactly. A static name indexes it with the name quoted. |
| GeneratorCompiler.BracketShape | lib/compiler.js:14-16 | Under pretty-printing, the lines are framed by an indent push at the current depth and an indent pop. Otherwise they are left alone. |
| GeneratorCompiler.Compiler.VisitMixinBlock | lib/compiler.js:13-17 | Appends the `yield* block()` line, bracketed by the indent push and pop under pretty-printing. Nothing else changes. |
| GeneratorCompiler.RegisteredAppend | lib/compiler.js:90-92 | Every range in the registry still points at its definition after more lines are appended. |
| GeneratorCompiler.RegisteredReset | lib/compiler.js:32-35 | Clearing a name's list on a call keeps the registry sound. |
| GeneratorCompiler.RegisteredAdd | lib/compiler.js:91-92 | Recording a range that holds the definition keeps the registry sound. |
| GeneratorCompiler.DefinitionFound | lib/compiler.js:83-90 | The range from `mixin_start` to `mixin_end` holds a definition of that name: it starts with the header `jade_mixins[...] = function*(` and ends with `};`. |
| GeneratorCompiler.Compiler.VisitMixin | lib/compiler.js:19-94 | The indentation counters are restored, and the dynamic flag is set by a `#` name. A call clears its registry entry when there is one and appends the call lines, bracketed under pretty-printing. The call node comes back as the `unshift` leaves it. A definition appends its lines and records their range under its name, and comes back unchanged. The registry stays sound. |
| GeneratorCompiler.Compiler.VisitCall | lib/compiler.js:31-81 | The registry entry is cleared when there is one. The call lines are appended, framed by indent push and pop under pretty-printing. The counters are unchanged. The returned node has the literal attributes put in front of its attribute blocks when it has both. |
| GeneratorCompiler.Compiler.EmitBracketedCall | lib/compiler.js:38-81 | Under pretty-printing: the indent push, the call lines, then the indent pop. The returned node is the call node after the `unshift`. |
| GeneratorCompiler.Compiler.ResetEntries | lib/compiler.js:32-37 | Only an existing entry is reset to the empty list. The registry stays sound. |
| GeneratorCompiler.Compiler.EmitCall | lib/compiler.js:39-80 | Appends the call's lines: the `.call({...})` form when there is a block or there are attributes, the bare call otherwise. The returned node is the call node after the `unshift`. |
| GeneratorCompiler.Compiler.EmitCallObject | lib/compiler.js:41-76 | Appends the opening `.call({`, the caller's block, the attributes as the source emits them, and the closer with or without the arguments. The returned node's attribute blocks are the list after `attrsBlocks.unshift(val)`. |
| GeneratorCompiler.Compiler.RevisitedCallDiffers | lib/compiler.js:61-70 | The `unshift` changes the call node exactly when it has both literal attributes and attribute blocks. Then the node's list starts with the literal object, and visiting it again emits different call lines. |
| GeneratorCompiler.Compiler.EmitCallerBlock | lib/compiler.js:43-59 | The block is visited with no indents and one more parent indent, then both counters are restored. It is closed by `},` exactly when attributes follow. |
| GeneratorCompiler.Compiler.CallShape | lib/compiler.js:39-80 | Without block or attributes, a call is the single line `yield* entry(args);`. Otherwise it opens with `yield* entry.call({` and closes with `}, args);` or `});`. |
| GeneratorCompiler.Compiler.CallBlockCloser | lib/compiler.js:43-58 | The caller's block sits between `block: function*(){` and its closer. The closer is `},` exactly when an attributes line follows. |
| GeneratorCompiler.Attributes | lib/compiler.js:61-70 | The corrected attributes emission: the same lines as the source, with the call node's attribute blocks left unchanged. With attribute blocks, one merge line lists the literal object (when there is one) and then the blocks. It equals the source's emission whenever the source leaves the node alone. |
| GeneratorCompiler.RevisitDuplicatesLiteralAttrs | lib/compiler.js:61-70 | As written, visiting the same call node twice merges the literal attributes in twice, and the two emissions differ. |
| GeneratorCompiler.Compiler.VisitDefinition | lib/compiler.js:83-92 | Appends header, prologue, body visited one parent indent deeper, and `};`. The range of those lines is appended to the name's list. |
| GeneratorCompiler.Compiler.VisitEach | lib/compiler.js:96-137 | Appends the header, the indexed branch, the keyed branch and the footer. The body is visited once per branch at the same indentation. |
| GeneratorCompiler.Compiler.EmitIndexedBranch | lib/compiler.js:103-119 | The indexed `for` loop with the body, and under an alternative the `if ($$obj.length)` guard and an `else` holding the alternative. |
| GeneratorCompiler.Compiler.EmitKeyedBranch | lib/compiler.js:121-135 | The keyed `for ... in` loop with the body, and under an alternative the `if ($$l === 0)` block holding it. |
| GeneratorCompiler.EachEmitsBodyTwice | lib/compiler.js:96-137 | The loop code starts with the header and ends with the footer. The body appears right after the indexed `for` and again right after the keyed `for`, each followed by the loop close. |
| GeneratorCompiler.EachAlternative | lib/compiler.js:103-135 | The line count is 6 + 2·body, plus 5 + 2·alternative when there is one. The alternative appears after the indexed `else` and again inside the `$$l === 0` guard. |
| GeneratorCompiler.Compiler.constructor | lib/compiler.js:6-8 | A fresh compiler has an empty buffer, zero indents, an empty registry and no dynamic mixins. |
| PugAst.NeedCompactionIsPush | packages/then-pug/lib/pug-code-gen.js:113-121 | A statement needs compaction exactly when it is a call of `buf.push`. Every statement `buf.push(e)` does. |
| PugCodeGen.ExclusionsMembers | packages/then-pug/lib/pug-code-gen.js:49-51 | A name is excluded exactly when it is a global of the options, an internal variable, `pug_` followed by a runtime function used, or one of `undefined`, `this`, `locals`. |
| PugCodeGen.WithVars | packages/then-pug/lib/pug-code-gen.js:52 | The bound variables are exactly the names found that are not excluded. |
| PugCodeGen.WithVarsInOrder | packages/then-pug/lib/pug-code-gen.js:52 | The bound variables keep the order in which they were found. |
| PugCodeGen.WithVarsExcluded | packages/then-pug/lib/pug-code-gen.js:49-52 | A bound variable was found and is none of the excluded names. |
| PugCodeGen.BindingReadsLocalsFirst | packages/then-pug/lib/pug-code-gen.js:58-67 | When `_ref` is an object, each binding argument evaluates to the property of `_ref` when `_ref` has it, else to the outer variable when it is defined, else to `undefined`. `_ref` has a name when it is an own property or a member of `Object.prototype` such as `constructor`, which `in` finds through the prototype chain. When `_ref` is not an object, the `in` test throws a `TypeError`. |
| PugCodeGen.CallArguments | packages/then-pug/lib/pug-code-gen.js:58-68 | `this` comes first, then one binding per variable, in order. |
| PugCodeGen.AstWithBindsVariables | packages/then-pug/lib/pug-code-gen.js:48-72 | The result is always the single `var _ret = (function(vars){ function* gen(){ast} ... }).call(this, ...)` declaration: the `vars.length > -1` guard always holds. The parameters are the bound variables in found order, and the template is the body of `gen`. With `_ref` an object, the arguments evaluate to the locals-first bindings; otherwise each of them throws a `TypeError`. |
| PugCodeGen.DeclarationsReadLocals | packages/then-pug/lib/pug-code-gen.js:82-94 | Three declarators: `pug_mixins`, `pug_interp`, `_ref`. When `locals` is `undefined` or `null`, reading `locals.pug_mixins` throws a `TypeError`. Otherwise the scope gains exactly those three names and `locals` is unchanged. `pug_mixins` is `locals.pug_mixins` when truthy and a fresh object otherwise. `pug_interp` is `undefined`. `_ref` is the locals when truthy and a fresh object otherwise, so it is an object whenever the locals are an object or falsy. |
| PugCodeGen.MixinsInit | packages/then-pug/lib/pug-code-gen.js:84-87 | The initialiser of `pug_mixins` throws a `TypeError` on `undefined` or `null` locals. Otherwise it gives `locals.pug_mixins` when that is truthy and an empty object otherwise. |
| PugCodeGen.RefInit | packages/then-pug/lib/pug-code-gen.js:89-92 | The initialiser of `_ref` gives the locals when they are truthy and an empty object otherwise. |
| PugCodeGen.ReturnReadsGenerator | packages/then-pug/lib/pug-code-gen.js:96-98 | The single return statement yields the `gen` function the wrapper exposes as `_ret.v`. The value of `_ret`, the object `{v: gen}` that the wrapper's call returns, is assumed: the evaluator has no function calls, so only the member access is proved. |
| PugCodeGen.AstBufferIsCompacted | packages/then-pug/lib/pug-code-gen.js:104-110 | The buffered statement is a one-argument `buf.push(node)`, which the compaction gathers. |
| PugCodeGen.CodeGenerator.constructor | packages/then-pug/lib/pug-code-gen.js:35-40 | Whatever the options, mixins are dynamic, generators are used, and the template variables are `locals`, `pug`, `buf`. |
| PugCompaction.RunLength | packages/then-pug/lib/pug-code-gen.js:140-143 | A run holds only pushes, stops at the first other statement or at 101 pushes, and is never empty when the list starts with a push. |
| PugCompaction.RunLengthIs | packages/then-pug/lib/pug-code-gen.js:140-143 | Any length with those three properties is the run length, which makes the run unique. |
| PugCompaction.JoinLiteralsShape | packages/then-pug/lib/pug-code-gen.js:146-158 | After joining, no two adjacent fragments are string literals. The first fragment is a literal exactly when it was one before. |
| PugCompaction.JoinLiteralsKeepsOthers | packages/then-pug/lib/pug-code-gen.js:146-158 | The fragments that are not literals survive joining unchanged and in order. |
| PugCompaction.JoinLiteralsKeepsText | packages/then-pug/lib/pug-code-gen.js:146-158 | Joining literals keeps the concatenated text of the fragments in every environment. |
| PugCompaction.SeededFoldConcatenates | packages/then-pug/lib/pug-code-gen.js:169-171 | The corrected fold evaluates to the concatenated text of the fragments, whatever their values. |
| PugCompaction.SquashKeepsOutput | packages/then-pug/lib/pug-code-gen.js:161-175 | The replacing push outputs exactly what the run of pushes output. |
| PugCompaction.SquashMatchesSourceOnLiteralStart | packages/then-pug/lib/pug-code-gen.js:161-175 | When the run's first argument is a string literal, the corrected push is the one the source's unseeded fold builds. |
| PugCompaction.SquashAsWrittenKeepsOutput | packages/then-pug/lib/pug-code-gen.js:161-175 | The push the source's unseeded fold builds outputs exactly what the run output, provided the first pushed value is a string. |
| PugCompaction.AsWrittenFoldAddsNumbers | packages/then-pug/lib/pug-code-gen.js:169-171 | As written, with a = 1 and b = 2, `buf.push(a); buf.push(b)` outputs "12" but the compacted push outputs "3". The corrected one outputs "12". |
| PugCompaction.CompactedKeepsOthers | packages/then-pug/lib/pug-code-gen.js:133-177 | Compaction keeps every statement that is not a push, in order, and never lengthens the list. The number of pushes shrinks by at most a factor of 101. |
| PugCompaction.CompactedWithoutPushes | packages/then-pug/lib/pug-code-gen.js:133-177 | A list without pushes is left unchanged. |
| PugCompaction.MergeGroup | packages/then-pug/lib/pug-code-gen.js:148-156 | Splicing replaces exactly the maximal literal group at `start` with one literal of its joined values and leaves the rest in place. |
| PugCompaction.JoinAdjacentLiterals | packages/then-pug/lib/pug-code-gen.js:146-158 | The in-place splicing loop computes the joined fragment list. |
| PugCompaction.GatherRun | packages/then-pug/lib/pug-code-gen.js:134-143 | The `while` loop stops after the run and collects the first argument of each push in it. |
| PugCompaction.SquashAt | packages/then-pug/lib/pug-code-gen.js:136-175 | The run at `start` is replaced in place by one push; everything before and after stays. |
| PugCompaction.CompactList | packages/then-pug/lib/pug-code-gen.js:133-177 | The outer loop, splicing in place, produces the compacted list. |
| PugWalk.CompactedKeepsTrace | packages/then-pug/lib/pug-code-gen.js:133-177 | Compacting a list keeps everything running it shows: the characters output and where every other statement and nested body begins and ends. |
| PugWalk.WalkExprKeeps | packages/then-pug/lib/pug-code-gen.js:123-182 | Walking an expression keeps its value and its trace. |
| PugWalk.WalkStmtKeeps | packages/then-pug/lib/pug-code-gen.js:123-182 | Walking a statement keeps whether it is a push, keeps its single argument and keeps its trace. |
| PugWalk.WalkBlockKeeps | packages/then-pug/lib/pug-code-gen.js:123-183 | `ast_postprocess` on a statement list keeps the trace of running it. |
| PugWalk.WalkEach | packages/then-pug/lib/pug-code-gen.js:127-131 | Walking each statement of a list keeps its length. |
| PugWalk.PostProcessList | packages/then-pug/lib/pug-code-gen.js:124-177 | The `forEach` loop and the compaction loop produce the walked, compacted list of the specification. |

## Left out

- `when` (compiler.js:22-28) and every promise: deferred values are modelled as already resolved strings, so `when` is the identity and `all(...).then(join)` is a plain join. Rejections are not modelled.
- Streaming and the public entry points of `index.js` are not modelled. The parser (`parser.js`) is not part of this model.
- The base compilers' own `visit`, `attrs()` and constructors are not modelled. They come in as parameters:
  - a replay of buffer and push instructions in `AsyncCompiler`;
  - the functions `visitLines` and `attrsSource` in `GeneratorCompiler`;
  - the host functions `text`, `escape`, `attrs` and `stringify` in `AsyncCompiler`.
- `eval` of constant filter attributes (compiler.js:74) is the host function `evalAttrs`. Render backends are the `Backend` values of the host. Errors a backend's `render` raises are left out.
- `GeneratorCompiler.Compiler.Visit`: a nested block is given by its lines through the pure function `visitLines`. Visiting the caller block (lib/compiler.js:50), a definition body (:87) or an `each` alternative (:117, :133) therefore has no effect on the compiler or on the tree:
  - definitions nested inside the block are not registered in `mixins` (:90-92);
  - calls nested inside it do not clear their registry entries (:32-34);
  - a nested `#{...}` name does not set `dynamicMixins` (:28);
  - nested call nodes are not changed by `unshift` (:64).

  The `mixins` and `dynamicMixins` clauses of `GeneratorCompiler.Compiler.VisitMixin`, `GeneratorCompiler.Compiler.VisitCall` and `GeneratorCompiler.Compiler.VisitDefinition` hold as stated only for blocks without nested mixins. The same goes for `GeneratorCompiler.Compiler.VisitEach`, which changes only `buf`.
- `GeneratorCompiler.Compiler.VisitMixin`, `GeneratorCompiler.Compiler.VisitCall`, `GeneratorCompiler.Compiler.VisitDefinition` and `GeneratorCompiler.Compiler.ResetEntries`: the registry `mixins` is a map. In the source it is a plain object, whose lookups also find the members of `Object.prototype` (`constructor`, `toString`, `valueOf`, `hasOwnProperty`, `__proto__`, ...). Mixin names equal to such a member are not modelled:
  - a definition with such a name makes `this.mixins[key] || []` return the inherited member, and the `push` at lib/compiler.js:92 throws a `TypeError`, where the model registers the range;
  - a call of such a name finds the inherited member truthy at :32, and the source creates an own `[]` entry, where the model leaves `mixins` unchanged.
- `AsyncCompiler.SetAttr`: the function carries no ensures of its own; its properties are those of `AsyncCompiler.SetAttrAssigns`.
- The `extra.raw` annotation on joined literals (packages/then-pug/lib/pug-code-gen.js:155) only affects printing and is left out.
- The compaction takes the first argument of each push. Pushes with no argument or more than one are outside the lemmas about output, which require one argument per push (`SingleArgPushes`). For a push with no argument, `PugAst.PushArg` gives `Ident("undefined")`, a placeholder for the JavaScript `undefined` that packages/then-pug/lib/pug-code-gen.js:141 collects. The Babel builders at :163-170 would reject that value, and the model does not capture the failure.
- `wrapCallExpression`, `parseExpr` and `ast_stringify` only wrap or pass through a Babel node and are not modelled.
- pug-code-gen-module.js is not part of this model: `ast_with` is applied to a statement list, and the free names `findGlobals` finds are the input `found`.
- `PugWalk.WalkBlockKeeps`: the environment must give a walked expression the same value as the original (`WalkStable`), because values of identifiers and calls are opaque.
- There are two expression evaluators, one per module:
  - `PugCompaction.Eval` evaluates the arguments of pushes. Its values are numbers and strings, and it knows string literals and `+`: adding two numbers, otherwise concatenating. Every other expression gets its value from the environment `env`. Other JavaScript values and coercions are not modelled.
  - `PugCodeGen.Eval` evaluates the generated declarations and the `with` wrapper. Its values are `undefined`, `null`, booleans, strings, plain objects and the members objects inherit from `Object.prototype`. It knows identifiers, member access, `typeof`, `in`, `!==`, `||`, `&&`, `?:` and the empty object literal, and it models `TypeError` and `ReferenceError` throws. It does not model numbers, the members strings and booleans inherit, objects without a prototype, getters, or `in` with a key that is not a string. `!==` compares objects by content, not identity.
- `PugCompaction.Squash`, `PugCompaction.Compacted`, `PugCompaction.SquashAt` and `PugCompaction.CompactList` use the corrected seeded fold of the first Findings row, not the unseeded reduce of packages/then-pug/lib/pug-code-gen.js:169-171. `PugCompaction.SquashMatchesSourceOnLiteralStart` and `PugCompaction.SquashAsWrittenKeepsOutput` bound where the two agree.
- `PugWalk.PostProcessList`: the compaction it runs is the corrected one, as for `PugCompaction.CompactList`.
- `PugWalk.CompactedKeepsTrace` keeps the output only for the corrected fold, and only for push arguments that a pure environment evaluates. Arguments with effects are not modelled: a `yield` or `yield*`, a call that itself pushes to `buf`, or a throw after part of the output. Compaction evaluates all arguments of a run before pushing once, so it can reorder such effects.
- `PugWalk.WalkBlockKeeps`: the same limits as `PugWalk.CompactedKeepsTrace`. It covers the corrected fold and effect-free push arguments only.
- `GeneratorCompiler.Compiler.VisitEach` visits the body through the function `visitLines`, which depends only on the block and the counters. Both copies of the body are therefore identical. In the source, the second visit sees the call nodes the first visit changed (`GeneratorCompiler.Compiler.AfterCall`), and its lines can differ (second Findings row).
- `GeneratorCompiler.EachEmitsBodyTwice`: the two identical body copies it states follow from the same simplification as `GeneratorCompiler.Compiler.VisitEach`.
- `GeneratorCompiler.EachAlternative`: the two identical copies of the alternative (lib/compiler.js:117 and :133) follow from the same simplification. In the source, the second visit of the alternative sees the call nodes the first one changed, and its lines can differ.
- `walk` is modelled on statement lists nested in statements and on the expressions listed in `PugAst`. The root of `walk` being an array, and arrays held by other node kinds, are not modelled.

## Findings

| source | as written | input that shows it | evidently intended | confidence | as-written member | corrected member |
|---|---|---|---|---|---|---|
| packages/then-pug/lib/pug-code-gen.js:169-171 | The fragments are folded with `+` and no initial value. When the first fragment is not a string literal, the first `+` adds numbers. | `buf.push(a); buf.push(b)` with `a = 1`, `b = 2` outputs "12". The compacted `buf.push(a + b)` outputs "3". | Compaction keeps the output: start the fold from `""` when the first fragment is not a string literal. | not executed | PugCompaction.AsWrittenFoldAddsNumbers | PugCompaction.SquashKeepsOutput |
| lib/compiler.js:61-70 | `attrsBlocks.unshift(val)` mutates the call node's own list. `visitEach` visits its block twice (lib/compiler.js:111 and 128). | `each x in xs` around `+m(a="1")&attributes(o)`, where `L` is the object `attrs` builds for `a="1"`: the indexed loop merges `[L, o]`, but the keyed loop merges `[L, L, o]`. | Every visit emits the same merge list, with the literal attributes once. | not executed | GeneratorCompiler.Compiler.RevisitedCallDiffers | GeneratorCompiler.RevisitIsStable |
