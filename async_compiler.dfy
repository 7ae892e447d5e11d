/**
 * The promise-based compiler of compiler.js: output buffering with coalescing of adjacent text,
 * the final join of the instruction buffer, and filter blocks rendered at compile time or at run time.
 *
 * Every deferred value is modelled as already resolved, so an instruction slot is a string.
 */
module AsyncCompiler {
  import opened Strings

  /** What one instruction slot holds before it is rendered as a line of generated code:
      accumulated output text, or a line of code pushed by a visitor. */
  datatype Piece = Text(text: string) | Code(line: string)

  /** One step of the base compiler's visit of a node, which this model does not contain:
      a call of `buffer(str, esc)` or a direct `buf.push(line)`. */
  datatype Instr = BufferText(str: string, esc: bool) | PushLine(line: string)

  /** The generated statement for accumulated text. */
  function Line(text: string): string {
    "buf.push('" + text + "');"
  }

  function RenderPiece(p: Piece): string {
    match p
    case Text(t) => Line(t)
    case Code(l) => l
  }

  function Render(ps: seq<Piece>): seq<string> {
    seq(|ps|, i requires 0 <= i < |ps| => RenderPiece(ps[i]))
  }

  lemma RenderSnoc(ps: seq<Piece>, p: Piece)
    ensures Render(ps + [p]) == Render(ps) + [RenderPiece(p)]
  {
  }

  lemma RenderReplaceLast(ps: seq<Piece>, t: string)
    requires ps != []
    ensures Render(ps[..|ps| - 1] + [Text(t)]) == Render(ps)[|ps| - 1 := Line(t)]
  {
  }

  predicate EndsInText(ps: seq<Piece>) {
    ps != [] && ps[|ps| - 1].Text?
  }

  /** One buffering step on the slot list: text is appended to a trailing text slot when there is
      one and opens a new slot otherwise; code always takes a new slot. */
  function AddPiece(slots: seq<Piece>, p: Piece): seq<Piece> {
    match p
    case Code(_) => slots + [p]
    case Text(t) =>
      if EndsInText(slots) then slots[..|slots| - 1] + [Text(slots[|slots| - 1].text + t)]
      else slots + [p]
  }

  /** The slot list that a sequence of buffering steps leaves, one step at a time. */
  function Coalesce(ps: seq<Piece>): seq<Piece>
    decreases |ps|
  {
    if ps == [] then [] else AddPiece(Coalesce(ps[..|ps| - 1]), ps[|ps| - 1])
  }

  /** Reference definition, read from the other end: a text piece is glued to the group that
      follows it when that group is text. */
  function Cons(p: Piece, rest: seq<Piece>): seq<Piece> {
    if p.Text? && rest != [] && rest[0].Text? then [Text(p.text + rest[0].text)] + rest[1..]
    else [p] + rest
  }

  function Groups(ps: seq<Piece>): seq<Piece>
    decreases |ps|
  {
    if ps == [] then [] else Cons(ps[0], Groups(ps[1..]))
  }

  /** The observable content of a slot list: the characters it outputs and, between them,
      the code lines, in order. */
  datatype Atom = Char(c: char) | Stmt(line: string)

  function Chars(s: string): (r: seq<Atom>)
    ensures |r| == |s|
  {
    seq(|s|, i requires 0 <= i < |s| => Char(s[i]))
  }

  function Expand(ps: seq<Piece>): seq<Atom>
    decreases |ps|
  {
    if ps == [] then []
    else Expand(ps[..|ps| - 1]) + (match ps[|ps| - 1] case Text(t) => Chars(t) case Code(l) => [Stmt(l)])
  }

  predicate NoAdjacentText(ps: seq<Piece>) {
    forall i :: 0 <= i < |ps| - 1 ==> !(ps[i].Text? && ps[i + 1].Text?)
  }

  lemma CharsAppend(a: string, b: string)
    ensures Chars(a + b) == Chars(a) + Chars(b)
  {
  }

  lemma ExpandAppend(a: seq<Piece>, b: seq<Piece>)
    ensures Expand(a + b) == Expand(a) + Expand(b)
    decreases |b|
  {
    if b == [] {
      assert a + b == a;
    } else {
      assert (a + b)[..|a + b| - 1] == a + b[..|b| - 1];
      ExpandAppend(a, b[..|b| - 1]);
    }
  }

  lemma {:induction false} AddPieceExpands(slots: seq<Piece>, p: Piece)
    ensures Expand(AddPiece(slots, p)) == Expand(slots) + Expand([p])
  {
    assert Expand([p]) == Expand([]) + (match p case Text(t) => Chars(t) case Code(l) => [Stmt(l)]);
    if p.Text? && EndsInText(slots) {
      var n := |slots|;
      var last := slots[n - 1];
      ExpandAppend(slots[..n - 1], [last]);
      assert slots[..n - 1] + [last] == slots;
      ExpandAppend(slots[..n - 1], [Text(last.text + p.text)]);
      assert Expand([last]) == Expand([]) + Chars(last.text);
      assert Expand([Text(last.text + p.text)]) == Expand([]) + Chars(last.text + p.text);
      CharsAppend(last.text, p.text);
    } else {
      ExpandAppend(slots, [p]);
    }
  }

  /** Coalescing never reorders output, never loses or duplicates a character and never merges
      text across a line of code: the slots output exactly what the buffering steps asked for. */
  lemma {:induction false} CoalescePreservesOutput(ps: seq<Piece>)
    ensures Expand(Coalesce(ps)) == Expand(ps)
    decreases |ps|
  {
    if ps != [] {
      var init := ps[..|ps| - 1];
      CoalescePreservesOutput(init);
      AddPieceExpands(Coalesce(init), ps[|ps| - 1]);
      ExpandAppend(init, [ps[|ps| - 1]]);
      assert init + [ps[|ps| - 1]] == ps;
    }
  }

  /** Adjacent text is always merged, and the slot list is never longer than the steps. */
  lemma {:induction false} CoalesceIsMaximal(ps: seq<Piece>)
    ensures NoAdjacentText(Coalesce(ps))
    ensures |Coalesce(ps)| <= |ps|
    ensures EndsInText(Coalesce(ps)) <==> EndsInText(ps)
    decreases |ps|
  {
    if ps != [] {
      CoalesceIsMaximal(ps[..|ps| - 1]);
    }
  }

  lemma ConsSnoc(p: Piece, s: seq<Piece>, x: Piece)
    requires s != []
    ensures Cons(p, s + [x]) == Cons(p, s) + [x]
  {
    assert (s + [x])[0] == s[0];
    assert (s + [x])[1..] == s[1..] + [x];
  }

  lemma ConsAddPieceCommute(p: Piece, s: seq<Piece>, q: Piece)
    ensures Cons(p, AddPiece(s, q)) == AddPiece(Cons(p, s), q)
  {
    if s == [] {
      assert Cons(p, []) == [p];
      assert AddPiece([], q) == [q];
    } else if |s| == 1 {
      assert s == [s[0]];
      if q.Text? && s[0].Text? {
        ConsAddPieceMerging(p, s[0], q);
      } else {
        ConsAddPieceSeparate(p, s[0], q);
      }
    } else {
      ConsAddPieceLong(p, s, q);
    }
  }

  lemma ConsAddPieceMerging(p: Piece, x: Piece, q: Piece)
    requires q.Text? && x.Text?
    ensures Cons(p, AddPiece([x], q)) == AddPiece(Cons(p, [x]), q)
  {
    var xq := Text(x.text + q.text);
    AddToText(x, q);
    if p.Text? {
      var px := Text(p.text + x.text);
      ConsText(p, x);
      ConsText(p, xq);
      AddToText(px, q);
      assert p.text + xq.text == px.text + q.text;
    } else {
      assert Cons(p, [xq]) == [p, xq];
      assert Cons(p, [x]) == [p, x];
      assert [p, x][..1] == [p];
    }
  }

  /** A text piece buffered after a single text slot merges with it. */
  lemma AddToText(x: Piece, q: Piece)
    requires x.Text? && q.Text?
    ensures AddPiece([x], q) == [Text(x.text + q.text)]
  {
    assert [x][..0] == [];
  }

  /** A text piece glued in front of a single text group merges with it. */
  lemma ConsText(p: Piece, x: Piece)
    requires p.Text? && x.Text?
    ensures Cons(p, [x]) == [Text(p.text + x.text)]
  {
    assert [x][1..] == [];
  }

  lemma ConsAddPieceSeparate(p: Piece, x: Piece, q: Piece)
    requires !(q.Text? && x.Text?)
    ensures Cons(p, AddPiece([x], q)) == AddPiece(Cons(p, [x]), q)
  {
    assert [x][1..] == [] && [x][..0] == [];
    assert AddPiece([x], q) == [x, q];
    assert [x, q][1..] == [q];
    if p.Text? && x.Text? {
      assert Cons(p, [x]) == [Text(p.text + x.text)];
    } else {
      assert Cons(p, [x]) == [p, x];
    }
  }

  lemma ConsAddPieceLong(p: Piece, s: seq<Piece>, q: Piece)
    requires |s| >= 2
    ensures Cons(p, AddPiece(s, q)) == AddPiece(Cons(p, s), q)
  {
    var n := |s|;
    var init := s[..n - 1];
    assert s == init + [s[n - 1]];
    ConsSnoc(p, init, s[n - 1]);
    var c := Cons(p, init);
    assert c + [s[n - 1]] == Cons(p, s);
    if q.Text? && s[n - 1].Text? {
      var merged := Text(s[n - 1].text + q.text);
      assert AddPiece(s, q) == init + [merged];
      ConsSnoc(p, init, merged);
      assert (c + [s[n - 1]])[..|c|] == c;
    } else {
      assert AddPiece(s, q) == s + [q];
      ConsSnoc(p, s, q);
    }
  }

  lemma {:induction false} GroupsSnoc(ps: seq<Piece>, q: Piece)
    ensures Groups(ps + [q]) == AddPiece(Groups(ps), q)
    decreases |ps|
  {
    if ps == [] {
      assert Groups([q]) == Cons(q, Groups([]));
    } else {
      assert (ps + [q])[1..] == ps[1..] + [q];
      GroupsSnoc(ps[1..], q);
      ConsAddPieceCommute(ps[0], Groups(ps[1..]), q);
    }
  }

  /** Merging one step at a time from the front gives the same slots as grouping each maximal
      run of text from the back. */
  lemma {:induction false} CoalesceIsGroups(ps: seq<Piece>)
    ensures Coalesce(ps) == Groups(ps)
    decreases |ps|
  {
    if ps != [] {
      var init := ps[..|ps| - 1];
      CoalesceIsGroups(init);
      GroupsSnoc(init, ps[|ps| - 1]);
      assert init + [ps[|ps| - 1]] == ps;
    }
  }

  /** The slots `compile` starts from: `var interp;`, and `var __indent = [];` when pretty-printing. */
  function Prelude(pp: bool): seq<Piece> {
    if pp then [Code("var interp;"), Code("var __indent = [];")] else [Code("var interp;")]
  }

  /** Because the prelude is code, the first buffered text of a compilation opens its own slot,
      which is the last one. */
  lemma FirstBufferOpensSlot(pp: bool, t: string)
    ensures Coalesce(Prelude(pp) + [Text(t)]) == Prelude(pp) + [Text(t)]
    ensures Render(Coalesce(Prelude(pp) + [Text(t)]))[|Prelude(pp)|] == Line(t)
  {
    var pre := Prelude(pp);
    PreludeIsCode(pp);
    CoalesceSnoc(pre, Text(t));
    RenderSnoc(pre, Text(t));
  }

  /** The prelude is code alone, so coalescing leaves it as it is. */
  lemma PreludeIsCode(pp: bool)
    ensures Coalesce(Prelude(pp)) == Prelude(pp) && !EndsInText(Prelude(pp))
  {
    var first := Code("var interp;");
    CoalesceSnoc([], first);
    assert [] + [first] == [first];
    if pp {
      CoalesceSnoc([first], Code("var __indent = [];"));
    }
  }

  /** Coalescing a list is coalescing all of it but its last piece, then adding that piece. */
  lemma CoalesceSnoc(ps: seq<Piece>, p: Piece)
    ensures Coalesce(ps + [p]) == AddPiece(Coalesce(ps), p)
  {
    assert (ps + [p])[..|ps|] == ps;
  }

  // ---------------------------------------------------------------------------------------------
  // Filters and their rendering

  /** A filter backend: the content type of its output and its rendering function. */
  datatype Backend = Backend(outExtension: string, render: (string, map<string, string>) -> string)

  /** One attribute: its name and the source text of its value. */
  datatype Attr = Attr(name: string, val: string)

  /** What the base compiler's `attrs()` returns: the source of an object literal body and whether
      every value is a constant. */
  datatype AttrsCode = AttrsCode(src: string, constant: bool)

  /** The foreign functions the compiler calls: the escape and text helpers, `JSON.stringify`,
      the base compiler's `attrs()`, the evaluation of a constant attribute object, and the registry
      of filter backends. */
  datatype Host = Host(
    escape: string -> string,
    text: string -> string,
    stringify: string -> string,
    attrs: seq<Attr> -> AttrsCode,
    evalAttrs: string -> map<string, string>,
    filters: map<string, Backend>)

  /** A filter node: its name, the values of its text nodes and its attributes in insertion order. */
  datatype Filter = Filter(name: string, nodes: seq<string>, attrs: seq<Attr>)

  datatype Outcome = Pass | Fail(message: string)

  function Names(attrs: seq<Attr>): seq<string> {
    seq(|attrs|, i requires 0 <= i < |attrs| => attrs[i].name)
  }

  function Lookup(attrs: seq<Attr>, key: string): (r: Option<string>)
    decreases |attrs|
  {
    if attrs == [] then None
    else if attrs[0].name == key then Some(attrs[0].val)
    else Lookup(attrs[1..], key)
  }

  datatype Option<T> = None | Some(value: T)

  /** `attrs[key] = val` on a JavaScript object: an existing key keeps its place and takes the new
      value; a new key goes last. */
  function SetAttr(attrs: seq<Attr>, key: string, val: string): seq<Attr>
    decreases |attrs|
  {
    if attrs == [] then [Attr(key, val)]
    else if attrs[0].name == key then [Attr(key, val)] + attrs[1..]
    else [attrs[0]] + SetAttr(attrs[1..], key, val)
  }

  /** After `attrs[key] = val`, `key` reads `val` and every other key reads what it did; the order
      of the names is kept, with `key` last when it is new. */
  lemma SetAttrAssigns(attrs: seq<Attr>, key: string, val: string)
    ensures Lookup(SetAttr(attrs, key, val), key) == Some(val)
    ensures forall k :: k != key ==> Lookup(SetAttr(attrs, key, val), k) == Lookup(attrs, k)
    ensures key in Names(attrs) ==> Names(SetAttr(attrs, key, val)) == Names(attrs)
    ensures key !in Names(attrs) ==> Names(SetAttr(attrs, key, val)) == Names(attrs) + [key]
  {
    forall k {
      SetAttrLookup(attrs, key, val, k);
    }
    SetAttrNames(attrs, key, val);
  }

  lemma {:induction false} SetAttrLookup(attrs: seq<Attr>, key: string, val: string, k: string)
    ensures Lookup(SetAttr(attrs, key, val), k) == if k == key then Some(val) else Lookup(attrs, k)
    decreases |attrs|
  {
    if attrs != [] {
      var r := SetAttr(attrs, key, val);
      if attrs[0].name == key {
        assert r[1..] == attrs[1..];
      } else {
        SetAttrLookup(attrs[1..], key, val, k);
        assert r[1..] == SetAttr(attrs[1..], key, val);
      }
    }
  }

  lemma NamesCons(a: Attr, l: seq<Attr>)
    ensures Names([a] + l) == [a.name] + Names(l)
  {
  }

  lemma {:induction false} SetAttrNames(attrs: seq<Attr>, key: string, val: string)
    ensures Names(SetAttr(attrs, key, val)) == if key in Names(attrs) then Names(attrs) else Names(attrs) + [key]
    decreases |attrs|
  {
    if attrs == [] {
      assert Names([Attr(key, val)]) == [key];
    } else {
      assert attrs == [attrs[0]] + attrs[1..];
      NamesCons(attrs[0], attrs[1..]);
      if attrs[0].name == key {
        NamesCons(Attr(key, val), attrs[1..]);
      } else {
        var rest := SetAttr(attrs[1..], key, val);
        SetAttrNames(attrs[1..], key, val);
        NamesCons(attrs[0], rest);
        assert key in Names(attrs) <==> key in Names(attrs[1..]);
      }
    }
  }

  /** Content-type wrapping of a filter's output. */
  function Wrap(ext: string, res: string): string {
    if ext == "css" then "<style type=\"text/css\">" + res + "</style>"
    else if ext == "js" then "<script type=\"text/javascript\">\n" + res + "</script>"
    else res
  }

  /** At compile time the output is embedded in a single-quoted literal: backslashes are doubled,
      then newlines become the two characters `\n`. */
  function EscapeForLiteral(s: string): string {
    ReplaceAll(ReplaceAll(s, '\\', "\\\\"), '\n', "\\n")
  }

  function QuoteEntities(s: string): string {
    ReplaceAll(s, '\'', "&#39;")
  }

  /** What `render` hands to the text helper: the wrapped output, escaped for a literal at compile
      time, with every single quote replaced by `&#39;`. */
  function RenderedText(b: Backend, text: string, attrs: map<string, string>, isCompileTime: bool): string {
    var w := Wrap(b.outExtension, b.render(text, attrs));
    QuoteEntities(if isCompileTime then EscapeForLiteral(w) else w)
  }

  /** How JavaScript reads the two escapes the compile-time path writes (`\\` and `\n`) inside a
      string literal; every other character stands for itself. */
  function ReadEscapes(s: string): string
    decreases |s|
  {
    if s == [] then ""
    else if s[0] == '\\' && |s| >= 2 && (s[1] == '\\' || s[1] == 'n') then
      (if s[1] == 'n' then "\n" else "\\") + ReadEscapes(s[2..])
    else [s[0]] + ReadEscapes(s[1..])
  }

  /** A rendering never contains a single quote, so it cannot close the `buf.push('...')` literal
      it is embedded in, and at compile time it holds no line break either. */
  lemma RenderedTextFitsLiteral(b: Backend, text: string, attrs: map<string, string>, isCompileTime: bool)
    ensures '\'' !in RenderedText(b, text, attrs, isCompileTime)
    ensures isCompileTime ==> '\n' !in RenderedText(b, text, attrs, isCompileTime)
  {
    var w := Wrap(b.outExtension, b.render(text, attrs));
    var e := if isCompileTime then EscapeForLiteral(w) else w;
    ReplaceAllAvoids(e, '\'', "&#39;", '\'');
    if isCompileTime {
      ReplaceAllAvoids(ReplaceAll(w, '\\', "\\\\"), '\n', "\\n", '\n');
      ReplaceAllAvoids(e, '\'', "&#39;", '\n');
    }
  }

  lemma ReadPlain(x: char, rest: string)
    requires x != '\\'
    ensures ReadEscapes([x] + rest) == [x] + ReadEscapes(rest)
  {
    assert ([x] + rest)[1..] == rest;
  }

  /** The escaped form of one character. */
  lemma EscapedChar(c: char)
    ensures QuoteEntities(EscapeForLiteral([c])) ==
      if c == '\\' then "\\\\" else if c == '\n' then "\\n" else if c == '\'' then "&#39;" else [c]
  {
    ReplaceAllChar(c, '\\', "\\\\");
    if c == '\\' {
      ReplaceAllAbsent("\\\\", '\n', "\\n");
      ReplaceAllAbsent("\\\\", '\'', "&#39;");
    } else {
      ReplaceAllChar(c, '\n', "\\n");
      if c == '\n' {
        ReplaceAllAbsent("\\n", '\'', "&#39;");
      } else {
        ReplaceAllChar(c, '\'', "&#39;");
      }
    }
  }

  /** Text without backslashes reads as itself. */
  lemma {:induction false} ReadPlains(p: string, rest: string)
    requires '\\' !in p
    ensures ReadEscapes(p + rest) == p + ReadEscapes(rest)
    decreases |p|
  {
    if p != [] {
      var tail := p[1..];
      assert p == [p[0]] + tail;
      assert p + rest == [p[0]] + (tail + rest);
      ReadPlain(p[0], tail + rest);
      ReadPlains(tail, rest);
      assert [p[0]] + (tail + ReadEscapes(rest)) == p + ReadEscapes(rest);
    } else {
      assert p + rest == rest;
    }
  }

  lemma ReadEscapesAfter(rest: string, c: char)
    ensures ReadEscapes(QuoteEntities(EscapeForLiteral([c])) + rest) == QuoteEntities([c]) + ReadEscapes(rest)
  {
    EscapedChar(c);
    ReplaceAllChar(c, '\'', "&#39;");
    var p := QuoteEntities(EscapeForLiteral([c]));
    if c == '\'' {
      ReadPlains("&#39;", rest);
    } else if c == '\\' || c == '\n' {
      assert (p + rest)[2..] == rest;
    } else {
      assert (p + rest)[1..] == rest;
    }
  }

  /** The compile-time escaping is undone by JavaScript reading the literal: the generated code
      outputs the wrapped rendering, quotes turned into entities, character for character. */
  lemma {:induction false} CompileTimeRenderRoundTrip(w: string)
    ensures ReadEscapes(QuoteEntities(EscapeForLiteral(w))) == QuoteEntities(w)
    decreases |w|
  {
    if w != [] {
      var c, rest := w[0], w[1..];
      assert w == [c] + rest;
      ReplaceAllAppend([c], rest, '\\', "\\\\");
      ReplaceAllAppend(ReplaceAll([c], '\\', "\\\\"), ReplaceAll(rest, '\\', "\\\\"), '\n', "\\n");
      assert EscapeForLiteral(w) == EscapeForLiteral([c]) + EscapeForLiteral(rest);
      ReplaceAllAppend(EscapeForLiteral([c]), EscapeForLiteral(rest), '\'', "&#39;");
      ReplaceAllAppend([c], rest, '\'', "&#39;");
      ReadEscapesAfter(QuoteEntities(EscapeForLiteral(rest)), c);
      CompileTimeRenderRoundTrip(rest);
    }
  }

  /** The CDATA block `visitFilter` buffers for the builtin `cdata` filter; the `\n` are escapes
      that the generated literal turns into line breaks. */
  function CData(text: string): string {
    "<![CDATA[\\n" + text + "\\n]]>"
  }

  function UnknownFilter(name: string): string {
    "unknown filter \":" + name + "\""
  }

  /** The line pushed when a filter's attributes are not constant: the filter is rendered when the
      template runs. */
  function RuntimeFilterCall(name: string, quotedText: string, attrsSrc: string): string {
    "buf.push(render(\"" + name + "\", " + quotedText + ", {" + attrsSrc + "}, false))"
  }

  /** What one buffering of text `s` does to the rendered slots: it rewrites the trailing text
      slot when there is one, and appends a slot otherwise; either way the slots end in text. */
  lemma BufferStep(emitted: seq<Piece>, s: string)
    ensures var slots := Coalesce(emitted);
      var next := Coalesce(emitted + [Text(s)]);
      && EndsInText(next)
      && (EndsInText(emitted) ==>
            && EndsInText(slots)
            && next[|next| - 1].text == slots[|slots| - 1].text + s
            && Render(next) == Render(slots)[|slots| - 1 := Line(slots[|slots| - 1].text + s)])
      && (!EndsInText(emitted) ==>
            && next[|next| - 1].text == s
            && Render(next) == Render(slots) + [Line(s)])
  {
    CoalesceIsMaximal(emitted);
    var slots := Coalesce(emitted);
    var next := emitted + [Text(s)];
    assert next[..|next| - 1] == emitted;
    if EndsInText(emitted) {
      var t := slots[|slots| - 1].text + s;
      assert Coalesce(next) == slots[..|slots| - 1] + [Text(t)];
      RenderReplaceLast(slots, t);
    } else {
      assert Coalesce(next) == slots + [Text(s)];
      RenderSnoc(slots, Text(s));
    }
  }

  class Compiler {
    const host: Host
    const pp: bool
    const filename: string

    /** The instruction buffer, the text of the trailing text slot and one past its index. */
    var buf: seq<string>
    var lastBuffered: string
    var lastBufferedIdx: int

    /** Every buffering step of the current compilation, in order. */
    ghost var Emitted: seq<Piece>

    ghost predicate Valid()
      reads this
    {
      && -1 <= lastBufferedIdx <= |buf|
      && buf == Render(Coalesce(Emitted))
      && (lastBufferedIdx == |buf| <==> EndsInText(Emitted))
      && (EndsInText(Emitted) ==>
            var slots := Coalesce(Emitted);
            EndsInText(slots) && lastBuffered == slots[|slots| - 1].text)
    }

    constructor (host: Host, pp: bool, filename: string)
      ensures Valid() && this.host == host && this.pp == pp && this.filename == filename
      ensures buf == [] && Emitted == []
    {
      this.host := host;
      this.pp := pp;
      this.filename := filename;
      buf := [];
      lastBuffered := "";
      lastBufferedIdx := -1;
      Emitted := [];
    }

    function Escaped(str: string, esc: bool): string {
      if esc then host.escape(str) else str
    }

    function Apply(instrs: seq<Instr>): seq<Piece> {
      seq(|instrs|, i requires 0 <= i < |instrs| =>
        match instrs[i]
        case BufferText(s, esc) => Text(Escaped(s, esc))
        case PushLine(l) => Code(l))
    }

    /** `buffer(str, esc)`: the (escaped) text joins the trailing text slot when the last thing
        pushed was buffered text, and otherwise opens a new slot. */
    method Buffer(str: string, esc: bool)
      requires Valid()
      modifies this`buf, this`lastBuffered, this`lastBufferedIdx, this`Emitted
      ensures Valid()
      ensures Emitted == old(Emitted) + [Text(Escaped(str, esc))]
      ensures old(lastBufferedIdx) == old(|buf|) ==>
        && |buf| == old(|buf|) && buf[..|buf| - 1] == old(buf[..|buf| - 1])
        && lastBufferedIdx == old(lastBufferedIdx)
        && lastBuffered == old(lastBuffered) + Escaped(str, esc)
        && buf[lastBufferedIdx - 1] == Line(lastBuffered)
      ensures old(lastBufferedIdx) != old(|buf|) ==>
        && buf == old(buf) + [Line(Escaped(str, esc))]
        && lastBufferedIdx == |buf|
        && lastBuffered == Escaped(str, esc)
    {
      var s := Escaped(str, esc);
      BufferStep(Emitted, s);
      if lastBufferedIdx == |buf| {
        lastBuffered := lastBuffered + s;
        buf := buf[lastBufferedIdx - 1 := Line(lastBuffered)];
      } else {
        buf := buf + [Line(s)];
        lastBuffered := s;
        lastBufferedIdx := |buf|;
      }
      Emitted := Emitted + [Text(s)];
    }

    /** A direct `this.buf.push(line)` by a visitor: a slot of code, which ends any text run. */
    method Push(line: string)
      requires Valid()
      modifies this`buf, this`Emitted
      ensures Valid()
      ensures buf == old(buf) + [line] && Emitted == old(Emitted) + [Code(line)]
    {
      ghost var next := Emitted + [Code(line)];
      assert next[..|next| - 1] == Emitted;
      buf := buf + [line];
      Emitted := next;
    }

    /** The base compiler's visit of a node, given as the steps it performs. */
    method Visit(instrs: seq<Instr>)
      requires Valid()
      modifies this`buf, this`lastBuffered, this`lastBufferedIdx, this`Emitted
      ensures Valid()
      ensures Emitted == old(Emitted) + Apply(instrs)
    {
      for i := 0 to |instrs|
        invariant Valid()
        invariant Emitted == old(Emitted) + Apply(instrs[..i])
      {
        assert Apply(instrs[..i + 1]) == Apply(instrs[..i]) + Apply([instrs[i]]);
        match instrs[i]
        case BufferText(s, esc) => Buffer(s, esc);
        case PushLine(l) => Push(l);
      }
      assert instrs[..|instrs|] == instrs;
    }

    /** `compile()`: seed the buffer, visit the root, and join every slot with a line break, in
        slot order. */
    method Compile(root: seq<Instr>) returns (js: string)
      modifies this`buf, this`lastBuffered, this`lastBufferedIdx, this`Emitted
      ensures Valid()
      ensures Emitted == Prelude(pp) + Apply(root)
      ensures buf == Render(Coalesce(Emitted))
      ensures js == Join(buf, "\n")
    {
      buf := ["var interp;"];
      Emitted := [Code("var interp;")];
      lastBufferedIdx := -1;
      assert Coalesce(Emitted) == [Code("var interp;")];
      if pp {
        Push("var __indent = [];");
      }
      Visit(root);
      js := Join(buf, "\n");
    }

    /** `Compiler.render(name, text, attrs, isCompileTime)` with the backend's result already
        resolved. */
    function RenderFilter(name: string, text: string, attrs: map<string, string>, isCompileTime: bool): string
      requires name in host.filters
    {
      host.text(RenderedText(host.filters[name], text, attrs, isCompileTime))
    }

    /** `visitFilter(filter)`: `cdata` is buffered without consulting the registry, an unknown name
        fails, constant attributes render now and anything else pushes a call made at run time.
        The `filename` attribute is always set. */
    method VisitFilter(f: Filter) returns (r: Outcome)
      requires Valid()
      modifies this`buf, this`lastBuffered, this`lastBufferedIdx, this`Emitted
      ensures Valid()
      ensures var text := Join(f.nodes, "\n");
        var attrs := SetAttr(f.attrs, "filename", "\"" + filename + "\"");
        var code := host.attrs(attrs);
        if f.name == "cdata" then
          r == Pass && Emitted == old(Emitted) + [Text(host.text(CData(text)))]
        else if f.name !in host.filters then
          r == Fail(UnknownFilter(f.name)) && Emitted == old(Emitted) && buf == old(buf)
        else if code.constant then
          r == Pass && Emitted == old(Emitted) + [Text(RenderFilter(f.name, text, host.evalAttrs(code.src), true))]
        else
          r == Pass && Emitted == old(Emitted) + [Code(RuntimeFilterCall(f.name, host.stringify(text), code.src))]
    {
      var text := Join(f.nodes, "\n");
      if f.name == "cdata" {
        Buffer(host.text(CData(text)), false);
        return Pass;
      }
      if f.name !in host.filters {
        return Fail(UnknownFilter(f.name));
      }
      var attrs := SetAttr(f.attrs, "filename", "\"" + filename + "\"");
      var code := host.attrs(attrs);
      if code.constant {
        var values := host.evalAttrs(code.src);
        Buffer(RenderFilter(f.name, text, values, true), false);
      } else {
        Push(RuntimeFilterCall(f.name, host.stringify(text), code.src));
      }
      r := Pass;
    }
  }

  /** A code line pushed between two buffered texts keeps them in separate slots. */
  lemma {:induction false} CodeSeparatesText(ps: seq<Piece>, a: string, line: string, b: string)
    ensures var slots := Coalesce(ps + [Text(a), Code(line), Text(b)]);
      |slots| >= 3 && slots[|slots| - 1] == Text(b) && slots[|slots| - 2] == Code(line)
  {
    var all := ps + [Text(a), Code(line), Text(b)];
    assert all[..|all| - 1] == ps + [Text(a), Code(line)];
    assert (ps + [Text(a), Code(line)])[..|all| - 2] == ps + [Text(a)];
    assert (ps + [Text(a)])[..|ps| + 1 - 1] == ps;
    CoalesceIsMaximal(ps + [Text(a)]);
  }
}
