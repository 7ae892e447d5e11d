/**
 * The generator-based compiler of lib/compiler.js: the code emitted for mixin definitions, mixin
 * calls, the caller's block inside a mixin, and `each` loops, together with the registry of the
 * instruction ranges that hold each mixin definition.
 *
 * The base compiler's visit of a child block is a stand-in that appends the lines the block
 * generates at the current indentation counters and touches nothing else.
 */
module GeneratorCompiler {
  import opened Strings

  datatype Option<T> = None | Some(value: T)

  /** A block node of the template; what it generates is decided by the base compiler. */
  datatype Block = Block(id: nat)

  /** A literal attribute of a mixin call. */
  datatype Attr = Attr(name: string, val: string, escaped: bool)

  /** A mixin node: a call `+name(args)` with its optional block, literal attributes and
      `&attributes(...)` blocks, or a definition `mixin name(args)` with its body. An absent
      argument list is the empty string. */
  datatype Mixin =
    | Call(name: string, args: string, block: Option<Block>, attrs: seq<Attr>, attributeBlocks: seq<string>)
    | Definition(name: string, args: string, body: Block)

  /** `each val, key in obj` with its body and its optional `else` block. */
  datatype Each = Each(obj: string, val: string, key: string, block: Block, alternative: Option<Block>)

  /** The slots of one mixin definition: `start` is the index of its header line, `end` is one
      past its closing `};`. */
  datatype Range = Range(start: nat, end: nat)

  /** A mixin name written `#{expr}` is computed when the template runs. */
  predicate IsDynamic(name: string) {
    |name| > 0 && name[0] == '#'
  }

  /** `name.substr(2, name.length - 3)`: the expression inside `#{...}`. */
  function MixinIndex(name: string): string {
    Substr(name, 2, |name| - 3)
  }

  /** The expression naming a mixin in the `jade_mixins` registry object. */
  function RegistryEntry(name: string): string {
    "jade_mixins[" + (if IsDynamic(name) then MixinIndex(name) else "\"" + name + "\"") + "]"
  }

  /** A dynamic name indexes the registry with the expression it interpolates, exactly; a static
      name indexes it with the name as a quoted string. */
  lemma RegistryEntryOfName(e: string, name: string)
    requires !IsDynamic(name)
    ensures IsDynamic("#{" + e + "}")
    ensures MixinIndex("#{" + e + "}") == e
    ensures RegistryEntry("#{" + e + "}") == "jade_mixins[" + e + "]"
    ensures RegistryEntry(name) == "jade_mixins[\"" + name + "\"]"
  {
    var d := "#{" + e + "}";
    assert d[2..2 + |e|] == e;
  }

  /** `Array(n + 1).join('  ')`: two spaces per level. */
  function Indent(n: nat): string {
    Repeat("  ", n)
  }

  function IndentPush(n: nat): string {
    "jade_indent.push('" + Indent(n) + "');"
  }

  const IndentPop := "jade_indent.pop();"
  const BlockOpen := "block: function*(){"

  /** Pretty-printing brackets the emitted lines with one indentation push and one pop. */
  function Bracket(pp: bool, n: nat, lines: seq<string>): seq<string> {
    if pp then [IndentPush(n)] + lines + [IndentPop] else lines
  }

  lemma BracketShape(pp: bool, n: nat, lines: seq<string>)
    ensures var b := Bracket(pp, n, lines);
      && (pp ==> |b| == |lines| + 2 && b[0] == IndentPush(n) && b[|b| - 1] == IndentPop && b[1..|b| - 1] == lines)
      && (!pp ==> b == lines)
  {
    if pp {
      var b := Bracket(pp, n, lines);
      assert b[1..|b| - 1] == lines;
    }
  }

  /** The header line of a definition starts with this. */
  function Header(name: string): string {
    RegistryEntry(name) + " = function*("
  }

  predicate IsPrefix(p: string, s: string) {
    |p| <= |s| && s[..|p|] == p
  }

  /** Slots `r.start` to `r.end - 1` of `buf` hold a definition of the mixin `name`: its header
      first and its closing line last. */
  predicate DefinitionAt(name: string, r: Range, buf: seq<string>) {
    r.start < r.end <= |buf| && IsPrefix(Header(name), buf[r.start]) && buf[r.end - 1] == "};"
  }

  /** Every range in the registry denotes a definition of the mixin it is registered under. */
  predicate Registered(mixins: map<string, seq<Range>>, buf: seq<string>) {
    forall name, i :: name in mixins && 0 <= i < |mixins[name]| ==> DefinitionAt(name, mixins[name][i], buf)
  }

  /** Appending to the buffer keeps every registered range in place. */
  lemma RegisteredAppend(mixins: map<string, seq<Range>>, buf: seq<string>, more: seq<string>)
    requires Registered(mixins, buf)
    ensures Registered(mixins, buf + more)
  {
    forall name, i | name in mixins && 0 <= i < |mixins[name]|
      ensures DefinitionAt(name, mixins[name][i], buf + more)
    {
      var r := mixins[name][i];
      assert DefinitionAt(name, r, buf);
      assert (buf + more)[r.start] == buf[r.start];
      assert (buf + more)[r.end - 1] == buf[r.end - 1];
    }
  }

  /** Forgetting the ranges of one mixin keeps the others in place. */
  lemma RegisteredReset(mixins: map<string, seq<Range>>, buf: seq<string>, name: string)
    requires Registered(mixins, buf)
    ensures Registered(mixins[name := []], buf)
  {
  }

  /** The ranges already registered under `name`; none when it has none. */
  function Entries(mixins: map<string, seq<Range>>, name: string): seq<Range> {
    if name in mixins then mixins[name] else []
  }

  /** Registering a definition found in the buffer keeps the registry sound. */
  lemma RegisteredAdd(mixins: map<string, seq<Range>>, buf: seq<string>, name: string, r: Range)
    requires Registered(mixins, buf) && DefinitionAt(name, r, buf)
    ensures Registered(mixins[name := Entries(mixins, name) + [r]], buf)
  {
  }

  /** A definition is the header line, the prologue, the body and the closing line. */
  lemma DefinitionFound(start: seq<string>, name: string, args: string, body: seq<string>)
    ensures var buf := start + DefinitionLines(name, args, body);
      DefinitionAt(name, Range(|start|, |buf|), buf)
  {
    var header := Header(name) + args + "){";
    var buf := start + DefinitionLines(name, args, body);
    assert buf[|start|] == header;
    assert header[..|Header(name)|] == Header(name);
  }

  /** `jade.merge([...])` over the given attribute objects, in order. */
  function MergeLine(objects: seq<string>): string {
    "attributes: jade.merge([" + Join(objects, ",") + "])"
  }

  /** What emitting a call's attributes produces: the lines, and the call node's list of attribute
      blocks afterwards. */
  datatype Emission = Emission(lines: seq<string>, blocksAfter: seq<string>)

  /** The attributes of a call as lib/compiler.js:61-70 emit them: `unshift` puts the literal
      attribute object in front of the node's own list of attribute blocks, so the node keeps it. */
  function AttributesAsWritten(literal: string, hasAttrs: bool, blocks: seq<string>): Emission {
    if |blocks| > 0 then
      var merged := if hasAttrs then [literal] + blocks else blocks;
      Emission([MergeLine(merged)], merged)
    else if hasAttrs then Emission(["attributes: " + literal], blocks)
    else Emission([], blocks)
  }

  /** Visiting the same call node a second time, as `visitEach` does with its body, merges the
      literal attributes in twice: the second emission differs from the first. */
  lemma RevisitDuplicatesLiteralAttrs(literal: string, blocks: seq<string>)
    requires |blocks| > 0
    ensures var first := AttributesAsWritten(literal, true, blocks);
      var second := AttributesAsWritten(literal, true, first.blocksAfter);
      && second.lines == [MergeLine([literal, literal] + blocks)]
      && second.lines != first.lines
  {
    var first := AttributesAsWritten(literal, true, blocks);
    assert first.blocksAfter == [literal] + blocks;
    var twice := [literal, literal] + blocks;
    assert [literal] + first.blocksAfter == twice;
    assert twice[1..] == [literal] + blocks;
    assert |Join(twice, ",")| == |literal| + 1 + |Join([literal] + blocks, ",")|;
  }

  /** The attributes of a call as they are meant to be emitted: the same lines as the source
      emits, with the node's list of attribute blocks left unchanged. */
  function Attributes(literal: string, hasAttrs: bool, blocks: seq<string>): (e: Emission)
    ensures e.blocksAfter == blocks
    ensures |e.lines| == (if hasAttrs || |blocks| > 0 then 1 else 0)
    ensures |blocks| > 0 ==> e.lines == [MergeLine((if hasAttrs then [literal] else []) + blocks)]
    ensures !hasAttrs || |blocks| == 0 ==> e == AttributesAsWritten(literal, hasAttrs, blocks)
  {
    assert (if hasAttrs then [literal] else []) + blocks == (if hasAttrs then [literal] + blocks else blocks);
    Emission(AttributesAsWritten(literal, hasAttrs, blocks).lines, blocks)
  }

  /** With the node left alone, every visit of a call emits the same attributes, and the literal
      object appears in the merge list once. Each of those visits emits what the source emits on
      its first visit, and the source's own second visit agrees with it exactly when the node has
      no literal attributes or no attribute blocks. */
  lemma {:induction false} RevisitIsStable(literal: string, hasAttrs: bool, blocks: seq<string>)
    ensures var first := Attributes(literal, hasAttrs, blocks);
      var second := Attributes(literal, hasAttrs, first.blocksAfter);
      && second == first
      && (hasAttrs && |blocks| > 0 ==> first.lines == [MergeLine([literal] + blocks)])
    ensures var w := AttributesAsWritten(literal, hasAttrs, blocks);
      && Attributes(literal, hasAttrs, blocks).lines == w.lines
      && (AttributesAsWritten(literal, hasAttrs, w.blocksAfter).lines == w.lines <==> !hasAttrs || |blocks| == 0)
  {
    if hasAttrs && |blocks| > 0 {
      RevisitDuplicatesLiteralAttrs(literal, blocks);
    }
  }

  /** Inside a definition, `block` and `attributes` come from the `this` object of the call. */
  const DefinitionPrologue := "var block = (this && this.block), attributes = (this && this.attributes) || {};"

  /** The lines of a mixin definition around the lines of its body. */
  function DefinitionLines(name: string, args: string, bodyLines: seq<string>): seq<string> {
    [Header(name) + args + "){", DefinitionPrologue] + bodyLines + ["};"]
  }

  /** The lines generated for `each`, around the lines of its body and of its `else` block. The
      indexed branch runs when `$$obj.length` is a number and the keyed branch otherwise. */
  function EachHeader(e: Each): string {
    "// iterate " + e.obj + "\n;yield* (function*(){\n  var $$obj = " + e.obj
    + ";\n  if ('number' == typeof $$obj.length) {\n"
  }

  function IndexedFor(e: Each): string {
    "    for (var " + e.key + " = 0, $$l = $$obj.length; " + e.key + " < $$l; " + e.key + "++) {\n"
    + "      var " + e.val + " = $$obj[" + e.key + "];\n"
  }

  function KeyedFor(e: Each): string {
    "  } else {\n    var $$l = 0;\n    for (var " + e.key + " in $$obj) {\n      $$l++;"
    + "      var " + e.val + " = $$obj[" + e.key + "];\n"
  }

  const LoopClose := "    }\n"
  const NonEmptyGuard := "  if ($$obj.length) {"
  const IndexedElse := "  } else {"
  const EmptyGuard := "    if ($$l === 0) {"
  const EachFooter := "  }\n}).call(this);\n"

  /** The indexed branch: the loop over `0 .. $$l - 1` and, when there is an `else` block, the guard
      `$$obj.length` around it with the `else` block in its else-part. */
  function IndexedBranch(e: Each, body: seq<string>, alt: Option<seq<string>>): seq<string> {
    (if alt.Some? then [NonEmptyGuard] else [])
    + [IndexedFor(e)] + body + [LoopClose]
    + (if alt.Some? then [IndexedElse] + alt.value + ["  }"] else [])
  }

  /** The keyed branch: the `for ... in` loop counting into `$$l` and, when there is an `else`
      block, the block behind `$$l === 0`. */
  function KeyedBranch(e: Each, body: seq<string>, alt: Option<seq<string>>): seq<string> {
    [KeyedFor(e)] + body + [LoopClose]
    + (if alt.Some? then [EmptyGuard] + alt.value + ["    }"] else [])
  }

  function EachLines(e: Each, body: seq<string>, alt: Option<seq<string>>): seq<string> {
    [EachHeader(e)] + IndexedBranch(e, body, alt) + KeyedBranch(e, body, alt) + [EachFooter]
  }

  /** Where the body starts in the indexed branch and in the keyed branch. */
  function IndexedBodyStart(alt: Option<seq<string>>): nat {
    if alt.Some? then 3 else 2
  }

  function KeyedBodyStart(body: seq<string>, alt: Option<seq<string>>): nat {
    IndexedBodyStart(alt) + |body| + 1 + (if alt.Some? then |alt.value| + 2 else 0) + 1
  }

  /** The middle of a three-part concatenation, and the element just before it. */
  lemma Middle(pre: seq<string>, mid: seq<string>, post: seq<string>)
    ensures (pre + mid + post)[|pre|..|pre| + |mid|] == mid
    ensures |pre| > 0 ==> (pre + mid + post)[|pre| - 1] == pre[|pre| - 1]
  {
  }

  /** The body is emitted twice, once after the indexed loop header (which reads `$$obj.length`
      into `$$l` once) and once after the keyed loop header, and the loop ends the function. */
  lemma EachEmitsBodyTwice(e: Each, body: seq<string>, alt: Option<seq<string>>)
    ensures var lines := EachLines(e, body, alt);
      var i := IndexedBodyStart(alt);
      var j := KeyedBodyStart(body, alt);
      && i + |body| < j && j + |body| < |lines|
      && lines[0] == EachHeader(e) && lines[|lines| - 1] == EachFooter
      && lines[i - 1] == IndexedFor(e) && lines[i..i + |body|] == body && lines[i + |body|] == LoopClose
      && lines[j - 1] == KeyedFor(e) && lines[j..j + |body|] == body && lines[j + |body|] == LoopClose
  {
    IndexedBodyAt(e, body, alt);
    KeyedBodyAt(e, body, alt);
  }

  lemma IndexedBodyAt(e: Each, body: seq<string>, alt: Option<seq<string>>)
    ensures var lines := EachLines(e, body, alt);
      var i := IndexedBodyStart(alt);
      && lines[i - 1] == IndexedFor(e) && i + |body| < |lines| && lines[i..i + |body|] == body && lines[i + |body|] == LoopClose
  {
    var g := if alt.Some? then [NonEmptyGuard] else [];
    var a1 := if alt.Some? then [IndexedElse] + alt.value + ["  }"] else [];
    var pre := [EachHeader(e)] + (g + [IndexedFor(e)]);
    var post := [LoopClose] + a1 + KeyedBranch(e, body, alt) + [EachFooter];
    var ib := IndexedBranch(e, body, alt);
    assert ib == (g + [IndexedFor(e)]) + body + ([LoopClose] + a1);
    assert EachLines(e, body, alt) == [EachHeader(e)] + ib + (KeyedBranch(e, body, alt) + [EachFooter]);
    assert EachLines(e, body, alt) == pre + body + post;
    Middle(pre, body, post);
  }

  lemma KeyedBodyAt(e: Each, body: seq<string>, alt: Option<seq<string>>)
    ensures var lines := EachLines(e, body, alt);
      var j := KeyedBodyStart(body, alt);
      && lines[j - 1] == KeyedFor(e) && j + |body| < |lines| && lines[j..j + |body|] == body && lines[j + |body|] == LoopClose
  {
    var a2 := if alt.Some? then [EmptyGuard] + alt.value + ["    }"] else [];
    var pre := [EachHeader(e)] + IndexedBranch(e, body, alt) + [KeyedFor(e)];
    var post := [LoopClose] + a2 + [EachFooter];
    assert KeyedBranch(e, body, alt) == [KeyedFor(e)] + body + post[..|post| - 1];
    assert EachLines(e, body, alt) == pre + body + post;
    Middle(pre, body, post);
  }

  /** The `else` block is emitted exactly when there is one, and then twice: in the else-part of
      the `$$obj.length` guard of the indexed branch and behind the `$$l === 0` guard of the keyed
      branch. */
  lemma EachAlternative(e: Each, body: seq<string>, alt: Option<seq<string>>)
    ensures |EachLines(e, body, alt)| == 6 + 2 * |body| + (if alt.Some? then 5 + 2 * |alt.value| else 0)
    ensures alt.Some? ==>
      var lines := EachLines(e, body, alt);
      var a := alt.value;
      var k1 := IndexedBodyStart(alt) + |body| + 2;
      var k2 := KeyedBodyStart(body, alt) + |body| + 2;
      && lines[1] == NonEmptyGuard
      && k2 + |a| < |lines|
      && lines[k1 - 1] == IndexedElse && lines[k1..k1 + |a|] == a
      && lines[k2 - 1] == EmptyGuard && lines[k2..k2 + |a|] == a
  {
    if alt.Some? {
      IndexedAlternativeAt(e, body, alt.value);
      KeyedAlternativeAt(e, body, alt.value);
    }
  }

  lemma IndexedAlternativeAt(e: Each, body: seq<string>, a: seq<string>)
    ensures var lines := EachLines(e, body, Some(a));
      var k := IndexedBodyStart(Some(a)) + |body| + 2;
      && lines[1] == NonEmptyGuard
      && k + |a| < |lines| && lines[k - 1] == IndexedElse && lines[k..k + |a|] == a
  {
    var pre := [EachHeader(e)] + ([NonEmptyGuard] + [IndexedFor(e)] + body + [LoopClose] + [IndexedElse]);
    var post := ["  }"] + KeyedBranch(e, body, Some(a)) + [EachFooter];
    var ib := IndexedBranch(e, body, Some(a));
    assert ib == ([NonEmptyGuard] + [IndexedFor(e)] + body + [LoopClose] + [IndexedElse]) + a + ["  }"];
    assert EachLines(e, body, Some(a)) == [EachHeader(e)] + ib + (KeyedBranch(e, body, Some(a)) + [EachFooter]);
    assert EachLines(e, body, Some(a)) == pre + a + post;
    Middle(pre, a, post);
  }

  lemma KeyedAlternativeAt(e: Each, body: seq<string>, a: seq<string>)
    ensures var lines := EachLines(e, body, Some(a));
      var k := KeyedBodyStart(body, Some(a)) + |body| + 2;
      && k + |a| < |lines| && lines[k - 1] == EmptyGuard && lines[k..k + |a|] == a
  {
    var pre := [EachHeader(e)] + IndexedBranch(e, body, Some(a)) + [KeyedFor(e)] + body + [LoopClose] + [EmptyGuard];
    var post := ["    }"] + [EachFooter];
    assert EachLines(e, body, Some(a)) == pre + a + post;
    Middle(pre, a, post);
  }

  lemma AppendFour<T>(start: seq<T>, a: T, b: seq<T>, c: seq<T>, d: T)
    ensures start + [a] + b + c + [d] == start + ([a] + b + c + [d])
  {
  }

  /** Where the pieces of `[open] + ([blockOpen] + body + [closer]) + rest + [end]` sit. */
  lemma CallerBlockPositions<T>(open: T, blockOpen: T, body: seq<T>, closer: T, rest: seq<T>, end: T)
    ensures var lines := [open] + ([blockOpen] + body + [closer]) + rest + [end]; var n := |body|;
      && |lines| > n + 2 && lines[1] == blockOpen && lines[2..n + 2] == body && lines[n + 2] == closer
  {
    var lines := [open] + ([blockOpen] + body + [closer]) + rest + [end];
    assert lines[2..|body| + 2] == body;
  }

  class Compiler {
    const pp: bool
    /** The lines the base compiler's visit of a block appends, given `indents` and `parentIndents`. */
    const visitLines: (Block, nat, nat) -> seq<string>
    /** The base compiler's `attrs()`: the source of the object literal for a list of attributes. */
    const attrsSource: seq<Attr> -> string

    var buf: seq<string>
    var indents: nat
    var parentIndents: nat
    var mixins: map<string, seq<Range>>
    var dynamicMixins: bool

    ghost predicate Valid()
      reads this
    {
      Registered(mixins, buf)
    }

    constructor (pp: bool, visitLines: (Block, nat, nat) -> seq<string>, attrsSource: seq<Attr> -> string)
      ensures Valid()
      ensures this.pp == pp && this.visitLines == visitLines && this.attrsSource == attrsSource
      ensures buf == [] && indents == 0 && parentIndents == 0 && mixins == map[] && !dynamicMixins
    {
      this.pp := pp;
      this.visitLines := visitLines;
      this.attrsSource := attrsSource;
      buf := [];
      indents := 0;
      parentIndents := 0;
      mixins := map[];
      dynamicMixins := false;
    }

    method Push(line: string)
      requires Valid()
      modifies this`buf
      ensures Valid()
      ensures buf == old(buf) + [line]
    {
      RegisteredAppend(mixins, buf, [line]);
      buf := buf + [line];
    }

    /** `this.visit(block)`. */
    method Visit(b: Block)
      requires Valid()
      modifies this`buf
      ensures Valid()
      ensures buf == old(buf) + visitLines(b, indents, parentIndents)
    {
      RegisteredAppend(mixins, buf, visitLines(b, indents, parentIndents));
      buf := buf + visitLines(b, indents, parentIndents);
    }

    /** `visitMixinBlock`: run the caller's block, bracketed by the indentation of the call site
        when pretty-printing. */
    method VisitMixinBlock()
      requires Valid()
      modifies this`buf
      ensures Valid()
      ensures buf == old(buf) + Bracket(pp, indents, ["block && (yield* block());"])
    {
      if pp {
        Push(IndentPush(indents));
      }
      Push("block && (yield* block());");
      if pp {
        Push(IndentPop);
      }
    }

    /** The closer of a caller block passed to a mixin: followed by a comma exactly when an
        attributes entry follows. */
    function BlockCloser(m: Mixin): string
      requires m.Call?
    {
      if |m.attrs| > 0 || |m.attributeBlocks| > 0 then "}," else "}"
    }

    /** The opening line of a call that passes a `this` object, and the line of a bare call. */
    function CallOpen(m: Mixin): string
      requires m.Call?
    {
      "yield* " + RegistryEntry(m.name) + ".call({"
    }

    function BareCall(m: Mixin): string
      requires m.Call?
    {
      "yield* " + RegistryEntry(m.name) + "(" + m.args + ");"
    }

    /** The lines of a call, given the lines of its caller block visited with no indents. */
    function CallLines(m: Mixin, blockLines: seq<string>): seq<string>
      requires m.Call?
    {
      if m.block.Some? || |m.attrs| > 0 || |m.attributeBlocks| > 0 then
        [CallOpen(m)]
        + CallerBlockLines(m, blockLines)
        + CallAttributes(m).lines
        + [CallEnd(m)]
      else [BareCall(m)]
    }

    /** The attributes entry of a call, as lib/compiler.js:61-70 emit it. */
    function CallAttributes(m: Mixin): Emission
      requires m.Call?
    {
      AttributesAsWritten(attrsSource(m.attrs), |m.attrs| > 0, m.attributeBlocks)
    }

    /** The call node as lib/compiler.js:64 leaves it: with both literal attributes and attribute
        blocks, the literal object has been put in front of the node's own attribute blocks. */
    function AfterCall(m: Mixin): Mixin
      requires m.Call?
    {
      m.(attributeBlocks := CallAttributes(m).blocksAfter)
    }

    /** The call node is changed exactly when it has both literal attributes and attribute blocks,
        and then a second visit emits the literal object twice and differs from the first. */
    lemma {:induction false} RevisitedCallDiffers(m: Mixin, blockLines: seq<string>)
      requires m.Call?
      ensures AfterCall(m) != m <==> |m.attrs| > 0 && |m.attributeBlocks| > 0
      ensures |m.attrs| > 0 && |m.attributeBlocks| > 0 ==>
        && AfterCall(m).attributeBlocks == [attrsSource(m.attrs)] + m.attributeBlocks
        && CallLines(AfterCall(m), blockLines) != CallLines(m, blockLines)
    {
      var literal := attrsSource(m.attrs);
      if |m.attrs| > 0 && |m.attributeBlocks| > 0 {
        var m2 := AfterCall(m);
        assert |m2.attributeBlocks| == |m.attributeBlocks| + 1;
        RevisitDuplicatesLiteralAttrs(literal, m.attributeBlocks);
        var pre := [CallOpen(m)] + CallerBlockLines(m, blockLines);
        assert CallOpen(m2) == CallOpen(m) && CallEnd(m2) == CallEnd(m);
        assert CallerBlockLines(m2, blockLines) == CallerBlockLines(m, blockLines);
        var a1 := CallAttributes(m).lines;
        var a2 := CallAttributes(m2).lines;
        assert |a1| == 1 && |a2| == 1 && a1 != a2;
        var l1 := pre + a1 + [CallEnd(m)];
        var l2 := pre + a2 + [CallEnd(m)];
        assert l1[|pre|] == a1[0] && l2[|pre|] == a2[0];
        assert CallLines(m, blockLines) == l1 && CallLines(m2, blockLines) == l2;
      }
    }

    /** What the caller block generates: it is visited with no indents, which are added when it
        runs, and one more parent indentation. */
    function CallerBlockVisit(m: Mixin, parentIndents: nat): seq<string>
      requires m.Call?
    {
      if m.block.Some? then visitLines(m.block.value, 0, parentIndents + 1) else []
    }

    /** The caller block as the `block` member of `this`. */
    function CallerBlockLines(m: Mixin, blockLines: seq<string>): seq<string>
      requires m.Call?
    {
      if m.block.Some? then [BlockOpen] + blockLines + [BlockCloser(m)] else []
    }

    function CallEnd(m: Mixin): string
      requires m.Call?
    {
      if m.args != "" then "}, " + m.args + ");" else "});"
    }

    /** A call with no block, no attributes and no attribute blocks is the single line
        `yield* name(args);`; any other call passes a `this` object and ends in `});` or
        `}, args);`. */
    lemma CallShape(m: Mixin, blockLines: seq<string>)
      requires m.Call?
      ensures m.block.None? && m.attrs == [] && m.attributeBlocks == [] ==>
        CallLines(m, blockLines) == ["yield* " + RegistryEntry(m.name) + "(" + m.args + ");"]
      ensures m.block.Some? || m.attrs != [] || m.attributeBlocks != [] ==>
        var lines := CallLines(m, blockLines);
        && lines[0] == "yield* " + RegistryEntry(m.name) + ".call({"
        && lines[|lines| - 1] == (if m.args != "" then "}, " + m.args + ");" else "});")
    {
    }

    /** With a caller block, the block's lines follow `block: function*(){`, and the line after
        them is `},` exactly when an attributes entry comes next. */
    lemma CallBlockCloser(m: Mixin, blockLines: seq<string>)
      requires m.Call? && m.block.Some?
      ensures var lines := CallLines(m, blockLines); var n := |blockLines|;
        && |lines| > n + 2
        && lines[1] == BlockOpen && lines[2..n + 2] == blockLines
        && (lines[n + 2] == "}," <==> |CallAttributes(m).lines| == 1)
    {
      var att := CallAttributes(m).lines;
      CallerBlockPositions(CallOpen(m), BlockOpen, blockLines, BlockCloser(m), att, CallEnd(m));
    }

    /** `visitMixin` on a call: the registry forgets the definitions of a mixin that is called so
        that they are kept, and the call is emitted with its caller block visited at no indentation
        and one more parent indentation. On a definition: the definition is emitted with its body
        visited at one more parent indentation and its range is added to the registry. Both
        leave the indentation counters as they were and record a dynamic name. `node` is the mixin
        node as the visit leaves it. */
    method VisitMixin(m: Mixin) returns (node: Mixin)
      requires Valid()
      modifies this`buf, this`indents, this`parentIndents, this`mixins, this`dynamicMixins
      ensures Valid()
      ensures indents == old(indents) && parentIndents == old(parentIndents)
      ensures dynamicMixins == (old(dynamicMixins) || IsDynamic(m.name))
      ensures m.Call? ==>
        && mixins == (if m.name in old(mixins) then old(mixins)[m.name := []] else old(mixins))
        && buf == old(buf) + Bracket(pp, old(indents),
             CallLines(m, CallerBlockVisit(m, old(parentIndents))))
        && node == AfterCall(m)
      ensures m.Definition? ==>
        && node == m
        && buf == old(buf) + DefinitionLines(m.name, m.args, visitLines(m.body, old(indents), old(parentIndents) + 1))
        && mixins == old(mixins)[m.name := Entries(old(mixins), m.name) + [Range(|old(buf)|, |buf|)]]
    {
      if IsDynamic(m.name) {
        dynamicMixins := true;
      }
      if m.Call? {
        node := VisitCall(m);
      } else {
        VisitDefinition(m);
        node := m;
      }
    }

    /** lib/compiler.js:31-81; `node` is the call node as the visit leaves it. */
    method VisitCall(m: Mixin) returns (node: Mixin)
      requires Valid() && m.Call?
      modifies this`buf, this`indents, this`parentIndents, this`mixins
      ensures Valid()
      ensures indents == old(indents) && parentIndents == old(parentIndents)
      ensures mixins == (if m.name in old(mixins) then old(mixins)[m.name := []] else old(mixins))
      ensures buf == old(buf) + Bracket(pp, old(indents),
        CallLines(m, CallerBlockVisit(m, old(parentIndents))))
      ensures node == AfterCall(m)
    {
      ResetEntries(m.name);
      if pp {
        node := EmitBracketedCall(m);
      } else {
        node := EmitCall(m);
      }
    }

    /** lib/compiler.js:38 and 81: when pretty-printing, the call is bracketed by pushing and
        popping the indentation of the call site. */
    method EmitBracketedCall(m: Mixin) returns (node: Mixin)
      requires Valid() && m.Call?
      modifies this`buf, this`indents, this`parentIndents
      ensures Valid()
      ensures indents == old(indents) && parentIndents == old(parentIndents)
      ensures buf == old(buf) + ([IndentPush(old(indents))] + CallLines(m, CallerBlockVisit(m, old(parentIndents))) + [IndentPop])
      ensures node == AfterCall(m)
    {
      ghost var lines := CallLines(m, CallerBlockVisit(m, parentIndents));
      ghost var before := buf;
      Push(IndentPush(indents));
      ghost var mid := buf;
      node := EmitCall(m);
      assert buf == mid + lines;
      Push(IndentPop);
      assert buf == before + [IndentPush(indents)] + lines + [IndentPop];
    }

    /** lib/compiler.js:32-37: a called mixin's registry entries are cleared. */
    method ResetEntries(name: string)
      requires Valid()
      modifies this`mixins
      ensures Valid()
      ensures mixins == (if name in old(mixins) then old(mixins)[name := []] else old(mixins))
    {
      if name in mixins {
        RegisteredReset(mixins, buf, name);
        mixins := mixins[name := []];
      }
    }

    /** lib/compiler.js:39-80: the call itself, with a `this` object when there is anything to
        pass in it. */
    method EmitCall(m: Mixin) returns (node: Mixin)
      requires Valid() && m.Call?
      modifies this`buf, this`indents, this`parentIndents
      ensures Valid()
      ensures indents == old(indents) && parentIndents == old(parentIndents)
      ensures buf == old(buf) + CallLines(m, CallerBlockVisit(m, old(parentIndents)))
      ensures node == AfterCall(m)
    {
      if m.block.Some? || |m.attrs| > 0 || |m.attributeBlocks| > 0 {
        node := EmitCallObject(m);
      } else {
        Push(BareCall(m));
        node := m;
      }
    }

    /** lib/compiler.js:41-76: a call passing the caller block and the attributes in `this`;
        `node` is the call node after the `unshift` of lib/compiler.js:64. */
    method EmitCallObject(m: Mixin) returns (node: Mixin)
      requires Valid() && m.Call?
      requires m.block.Some? || |m.attrs| > 0 || |m.attributeBlocks| > 0
      modifies this`buf, this`indents, this`parentIndents
      ensures Valid()
      ensures indents == old(indents) && parentIndents == old(parentIndents)
      ensures buf == old(buf) + CallLines(m, CallerBlockVisit(m, old(parentIndents)))
      ensures node == AfterCall(m)
    {
      ghost var start := buf;
      ghost var blockLines := CallerBlockVisit(m, parentIndents);
      Push(CallOpen(m));
      EmitCallerBlock(m);
      ghost var withBlock := buf;
      var att := AttributesAsWritten(attrsSource(m.attrs), |m.attrs| > 0, m.attributeBlocks);
      if |att.lines| == 1 {
        Push(att.lines[0]);
        assert [att.lines[0]] == att.lines;
      }
      assert buf == withBlock + att.lines;
      Push(CallEnd(m));
      ghost var lines := [CallOpen(m)] + CallerBlockLines(m, blockLines) + att.lines + [CallEnd(m)];
      assert withBlock == start + [CallOpen(m)] + CallerBlockLines(m, blockLines);
      AppendFour(start, CallOpen(m), CallerBlockLines(m, blockLines), att.lines, CallEnd(m));
      assert CallLines(m, blockLines) == lines;
      node := m.(attributeBlocks := att.blocksAfter);
    }

    /** lib/compiler.js:43-59: the caller block is rendered with no indents, which are added when it
        runs, and one more parent indentation; both counters are restored afterwards. */
    method EmitCallerBlock(m: Mixin)
      requires Valid() && m.Call?
      modifies this`buf, this`indents, this`parentIndents
      ensures Valid()
      ensures indents == old(indents) && parentIndents == old(parentIndents)
      ensures buf == old(buf) + CallerBlockLines(m, CallerBlockVisit(m, old(parentIndents)))
    {
      if m.block.Some? {
        Push(BlockOpen);
        parentIndents := parentIndents + 1;
        var saved := indents;
        indents := 0;
        Visit(m.block.value);
        indents := saved;
        parentIndents := parentIndents - 1;
        Push(BlockCloser(m));
      }
    }

    /** lib/compiler.js:83-92. */
    method VisitDefinition(m: Mixin)
      requires Valid() && m.Definition?
      modifies this`buf, this`parentIndents, this`mixins
      ensures Valid()
      ensures parentIndents == old(parentIndents)
      ensures buf == old(buf) + DefinitionLines(m.name, m.args, visitLines(m.body, indents, old(parentIndents) + 1))
      ensures mixins == old(mixins)[m.name := Entries(old(mixins), m.name) + [Range(|old(buf)|, |buf|)]]
    {
      ghost var start := buf;
      var mixinStart := |buf|;
      var header := RegistryEntry(m.name) + " = function*(" + m.args + "){";
      Push(header);
      Push(DefinitionPrologue);
      parentIndents := parentIndents + 1;
      Visit(m.body);
      parentIndents := parentIndents - 1;
      Push("};");
      assert header == Header(m.name) + m.args + "){";
      ghost var body := visitLines(m.body, indents, parentIndents + 1);
      assert buf == start + DefinitionLines(m.name, m.args, body);
      var mixinEnd := |buf|;
      var r := Range(mixinStart, mixinEnd);
      DefinitionFound(start, m.name, m.args, body);
      RegisteredAdd(mixins, buf, m.name, r);
      mixins := mixins[m.name := Entries(mixins, m.name) + [r]];
    }

    /** `visitEach`: the loop is emitted with its body, and its `else` block when there is one, at
        the current indentation. */
    method VisitEach(e: Each)
      requires Valid()
      modifies this`buf
      ensures Valid()
      ensures buf == old(buf) + EachLines(e, visitLines(e.block, indents, parentIndents), AltLines(e))
    {
      Push(EachHeader(e));
      EmitIndexedBranch(e);
      EmitKeyedBranch(e);
      Push(EachFooter);
    }

    function AltLines(e: Each): Option<seq<string>>
      reads this
    {
      if e.alternative.Some? then Some(visitLines(e.alternative.value, indents, parentIndents)) else None
    }

    method EmitIndexedBranch(e: Each)
      requires Valid()
      modifies this`buf
      ensures Valid()
      ensures buf == old(buf) + IndexedBranch(e, visitLines(e.block, indents, parentIndents), AltLines(e))
    {
      if e.alternative.Some? {
        Push(NonEmptyGuard);
      }
      Push(IndexedFor(e));
      Visit(e.block);
      Push(LoopClose);
      if e.alternative.Some? {
        Push(IndexedElse);
        Visit(e.alternative.value);
        Push("  }");
      }
    }

    method EmitKeyedBranch(e: Each)
      requires Valid()
      modifies this`buf
      ensures Valid()
      ensures buf == old(buf) + KeyedBranch(e, visitLines(e.block, indents, parentIndents), AltLines(e))
    {
      Push(KeyedFor(e));
      Visit(e.block);
      Push(LoopClose);
      if e.alternative.Some? {
        Push(EmptyGuard);
        Visit(e.alternative.value);
        Push("    }");
      }
    }
  }
}
