/**
 * The compaction of one statement list by `ast_postprocess` in
 * packages/then-pug/lib/pug-code-gen.js: every run of consecutive `buf.push(x)` statements, at
 * most 101 long, becomes one `buf.push` of the `+`-fold of the run's arguments, after adjacent
 * string literals among them have been joined into one.
 *
 * What the generated code outputs is given by a small evaluator: string literals, `+` with the
 * JavaScript meaning for numbers and strings, and an environment for every other expression.
 */
module PugCompaction {
  import opened PugAst

  // Sequence facts, stated for any element type so that proving them never involves comparing
  // syntax trees.

  lemma SplitAt<T>(s: seq<T>, n: nat)
    requires n <= |s|
    ensures s == s[..n] + s[n..]
  {
  }

  lemma Prefix1<T>(s: seq<T>)
    requires s != []
    ensures s[..1] == [s[0]]
  {
  }

  lemma Unsplice<T>(s: seq<T>, j: nat)
    requires j < |s|
    ensures s == s[..j] + [s[j]] + s[j + 1..]
  {
  }

  lemma SnocSplit<T>(a: seq<T>, b: seq<T>)
    requires b != []
    ensures b == b[..|b| - 1] + [b[|b| - 1]]
    ensures a + b == (a + b[..|b| - 1]) + [b[|b| - 1]]
  {
  }

  lemma SnocParts<T>(f: seq<T>, x: T)
    ensures f + [x] != [] && (f + [x])[..|f|] == f && (f + [x])[|f|] == x
  {
  }

  lemma SuffixPrefix<T>(s: seq<T>, j: nat, n: nat)
    requires j + n <= |s|
    ensures s[j..][..n] == s[j..j + n]
  {
  }

  /** No compacted push absorbs more pushes than this. */
  const MaxRun := 101

  // ---------------------------------------------------------------------------------------------
  // Runs of pushes and their arguments

  /** The number of statements the inner `while` loop gathers from the front of `l`: the pushes
      there, but no more than `MaxRun`. */
  function RunLength(l: seq<Stmt>): (n: nat)
    ensures n <= |l| && n <= MaxRun
    ensures forall i :: 0 <= i < n ==> NeedCompaction(l[i])
    ensures n < |l| && n < MaxRun ==> !NeedCompaction(l[n])
    ensures l != [] && NeedCompaction(l[0]) ==> n > 0
    decreases |l|
  {
    if l == [] || !NeedCompaction(l[0]) then 0
    else
      var m := RunLength(l[1..]);
      if m + 1 <= MaxRun then m + 1 else MaxRun
  }

  /** Any count that has the three properties of the loop's exit is the run length. */
  lemma {:induction false} RunLengthIs(l: seq<Stmt>, n: nat)
    requires n <= |l| && n <= MaxRun
    requires forall i :: 0 <= i < n ==> NeedCompaction(l[i])
    requires n < |l| && n < MaxRun ==> !NeedCompaction(l[n])
    ensures RunLength(l) == n
  {
    var r := RunLength(l);
    if r < n {
      assert false;
    } else if n < r {
      assert false;
    }
  }

  predicate AllPushes(run: seq<Stmt>) {
    forall i :: 0 <= i < |run| ==> NeedCompaction(run[i])
  }

  /** `fragment`: the first argument of every push of a run. */
  function Fragments(run: seq<Stmt>): (f: seq<Expr>)
    requires AllPushes(run)
    ensures |f| == |run|
  {
    seq(|run|, i requires 0 <= i < |run| => PushArg(run[i]))
  }

  // ---------------------------------------------------------------------------------------------
  // Joining adjacent string literals

  /** The number of string literals at the front of `f`. */
  function LitRun(f: seq<Expr>): (n: nat)
    ensures n <= |f|
    decreases |f|
  {
    if f == [] || !f[0].Str? then 0 else 1 + LitRun(f[1..])
  }

  /** The run counts literals, and stops at the first fragment that is not one. */
  lemma {:induction false} LitRunShape(f: seq<Expr>)
    ensures forall i :: 0 <= i < LitRun(f) ==> f[i].Str?
    ensures LitRun(f) < |f| ==> !f[LitRun(f)].Str?
    decreases |f|
  {
    if f != [] && f[0].Str? {
      LitRunShape(f[1..]);
    }
  }

  lemma {:induction false} LitRunIs(f: seq<Expr>, n: nat)
    requires n <= |f|
    requires forall i :: 0 <= i < n ==> f[i].Str?
    requires n < |f| ==> !f[n].Str?
    ensures LitRun(f) == n
  {
    var r := LitRun(f);
    LitRunShape(f);
    if r < n {
      assert false;
    } else if n < r {
      assert false;
    }
  }

  /** `slice.map(v => v.value).join('')`. */
  function LiteralText(f: seq<Expr>): string
    decreases |f|
  {
    if f == [] then "" else LiteralText(f[..|f| - 1]) + (if f[|f| - 1].Str? then f[|f| - 1].value else "")
  }

  predicate NoAdjacentLiterals(f: seq<Expr>) {
    forall i :: 0 <= i < |f| - 1 ==> !(f[i].Str? && f[i + 1].Str?)
  }

  /** The fragments after the literal-joining loop: each maximal group of adjacent literals becomes
      one literal, and everything else stays where it was. */
  function JoinLiterals(f: seq<Expr>): (r: seq<Expr>)
    ensures |r| <= |f|
    ensures r == [] <==> f == []
    decreases |f|
  {
    if f == [] then []
    else if f[0].Str? then
      var n := LitRun(f);
      [Str(LiteralText(f[..n]))] + JoinLiterals(f[n..])
    else [f[0]] + JoinLiterals(f[1..])
  }

  /** After joining, no two literals are adjacent, and the first fragment is a literal exactly
      when it was one before. */
  lemma {:induction false} JoinLiteralsShape(f: seq<Expr>)
    ensures NoAdjacentLiterals(JoinLiterals(f))
    ensures f != [] ==> (JoinLiterals(f)[0].Str? <==> f[0].Str?)
    decreases |f|
  {
    if f != [] {
      var n := if f[0].Str? then LitRun(f) else 1;
      LitRunShape(f);
      JoinLiteralsShape(f[n..]);
    }
  }

  /** The expressions of `f` that are not string literals, in order. */
  function NonLiterals(f: seq<Expr>): seq<Expr>
    decreases |f|
  {
    if f == [] then [] else (if f[0].Str? then [] else [f[0]]) + NonLiterals(f[1..])
  }

  lemma {:induction false} NonLiteralsAppend(a: seq<Expr>, b: seq<Expr>)
    ensures NonLiterals(a + b) == NonLiterals(a) + NonLiterals(b)
    decreases |a|
  {
    if a == [] {
      assert a + b == b;
    } else {
      assert (a + b)[1..] == a[1..] + b;
      NonLiteralsAppend(a[1..], b);
    }
  }

  lemma {:induction false} NonLiteralsOfLiterals(f: seq<Expr>)
    requires forall i :: 0 <= i < |f| ==> f[i].Str?
    ensures NonLiterals(f) == []
    decreases |f|
  {
    if f != [] {
      NonLiteralsOfLiterals(f[1..]);
    }
  }

  /** Joining never moves, drops or adds an expression that is not a literal. */
  lemma {:induction false} JoinLiteralsKeepsOthers(f: seq<Expr>)
    ensures NonLiterals(JoinLiterals(f)) == NonLiterals(f)
    decreases |f|
  {
    if f != [] {
      if f[0].Str? {
        var n := LitRun(f);
        assert f == f[..n] + f[n..];
        NonLiteralsAppend(f[..n], f[n..]);
        LitRunShape(f);
        NonLiteralsOfLiterals(f[..n]);
        JoinLiteralsKeepsOthers(f[n..]);
        var lit := Str(LiteralText(f[..n]));
        NonLiteralsAppend([lit], JoinLiterals(f[n..]));
        assert NonLiterals([lit]) == [];
      } else {
        JoinLiteralsKeepsOthers(f[1..]);
      }
    }
  }

  // ---------------------------------------------------------------------------------------------
  // Values

  /** The values pushed: numbers and strings. */
  datatype Value = Number(n: int) | Text(s: string)

  function DigitChar(d: nat): char
    requires d < 10
  {
    "0123456789"[d]
  }

  function NatToString(n: nat): string
    decreases n
  {
    if n < 10 then [DigitChar(n)] else NatToString(n / 10) + [DigitChar(n % 10)]
  }

  /** `toString()` */
  function ToStr(v: Value): string {
    match v
    case Text(s) => s
    case Number(n) => if n < 0 then "-" + NatToString(-n) else NatToString(n)
  }

  /** JavaScript `+`: numeric addition when both operands are numbers, concatenation otherwise. */
  function Add(a: Value, b: Value): Value {
    if a.Number? && b.Number? then Number(a.n + b.n) else Text(ToStr(a) + ToStr(b))
  }

  /** The value of an expression: literals and `+` are interpreted, everything else is looked up. */
  function Eval(e: Expr, env: Expr -> Value): Value
    decreases e
  {
    match e
    case Str(v) => Text(v)
    case Binary(op, l, r) => if op == "+" then Add(Eval(l, env), Eval(r, env)) else env(e)
    case _ => env(e)
  }

  /** The text the values of `f` make when each is converted to a string in turn; this is also
      what one push of all of `f` outputs. */
  function Concat(f: seq<Expr>, env: Expr -> Value): string
    decreases |f|
  {
    if f == [] then "" else Concat(f[..|f| - 1], env) + ToStr(Eval(f[|f| - 1], env))
  }

  lemma {:induction false} ConcatAppend(a: seq<Expr>, b: seq<Expr>, env: Expr -> Value)
    ensures Concat(a + b, env) == Concat(a, env) + Concat(b, env)
    decreases |b|
  {
    if b == [] {
      assert a + b == a;
    } else {
      var init, x := b[..|b| - 1], b[|b| - 1];
      SnocSplit(a, b);
      ConcatSnoc(a + init, x, env);
      ConcatSnoc(init, x, env);
      ConcatAppend(a, init, env);
    }
  }

  lemma ConcatSnoc(f: seq<Expr>, x: Expr, env: Expr -> Value)
    ensures Concat(f + [x], env) == Concat(f, env) + ToStr(Eval(x, env))
  {
    SnocParts(f, x);
  }

  lemma {:induction false} ConcatOfLiterals(f: seq<Expr>, env: Expr -> Value)
    requires forall i :: 0 <= i < |f| ==> f[i].Str?
    ensures Concat(f, env) == LiteralText(f)
    decreases |f|
  {
    if f != [] {
      ConcatOfLiterals(f[..|f| - 1], env);
    }
  }

  lemma ConcatSingle(e: Expr, env: Expr -> Value)
    ensures Concat([e], env) == ToStr(Eval(e, env))
  {
    assert [e][..0] == [];
  }

  /** Joining literals does not change the text the fragments make. */
  lemma {:induction false} JoinLiteralsKeepsText(f: seq<Expr>, env: Expr -> Value)
    ensures Concat(JoinLiterals(f), env) == Concat(f, env)
    decreases |f|
  {
    if f != [] {
      var n := if f[0].Str? then LitRun(f) else 1;
      var first := if f[0].Str? then Str(LiteralText(f[..n])) else f[0];
      JoinLiteralsFront(f, n, first);
      JoinLiteralsKeepsText(f[n..], env);
      ConcatSingle(first, env);
      if f[0].Str? {
        LitRunShape(f);
        ConcatOfLiterals(f[..n], env);
      } else {
        Prefix1(f);
        ConcatSingle(f[0], env);
      }
      calc {
        Concat(JoinLiterals(f), env);
        { ConcatAppend([first], JoinLiterals(f[n..]), env); }
        Concat([first], env) + Concat(JoinLiterals(f[n..]), env);
        Concat(f[..n], env) + Concat(f[n..], env);
        { SplitAt(f, n); ConcatAppend(f[..n], f[n..], env); }
        Concat(f, env);
      }
    }
  }

  // ---------------------------------------------------------------------------------------------
  // The fold

  /** `fragment.reduce((acc, val) => t.binaryExpression('+', acc, val))`: a left fold with `+`
      and no initial value. */
  function FoldAsWritten(f: seq<Expr>): Expr
    requires |f| > 0
    decreases |f|
  {
    if |f| == 1 then f[0] else Binary("+", FoldAsWritten(f[..|f| - 1]), f[|f| - 1])
  }

  /** Once the accumulated value is a string, every later `+` concatenates. */
  lemma {:induction false} FoldFromText(f: seq<Expr>, env: Expr -> Value)
    requires |f| > 0 && Eval(f[0], env).Text?
    ensures Eval(FoldAsWritten(f), env) == Text(Concat(f, env))
    decreases |f|
  {
    if |f| == 1 {
      assert f[..0] == [];
    } else {
      var init := f[..|f| - 1];
      assert init[0] == f[0];
      FoldFromText(init, env);
    }
  }

  /** The fold as it is meant to work: when the first fragment is not a string literal, the fold
      starts from the empty string, so that `+` concatenates from the first step on. */
  function SeededFold(f: seq<Expr>): Expr
    requires |f| > 0
  {
    if f[0].Str? then FoldAsWritten(f) else FoldAsWritten([Str("")] + f)
  }

  /** The seeded fold evaluates to exactly the text its fragments make, whatever their values. */
  lemma SeededFoldConcatenates(f: seq<Expr>, env: Expr -> Value)
    requires |f| > 0
    ensures Eval(SeededFold(f), env) == Text(Concat(f, env))
  {
    if f[0].Str? {
      FoldFromText(f, env);
    } else {
      FoldFromText([Str("")] + f, env);
      ConcatAppend([Str("")], f, env);
      assert Concat([Str("")], env) == Concat([], env) + "";
    }
  }

  /** The replacement of one run as the source builds it. */
  function SquashAsWritten(run: seq<Stmt>): Stmt
    requires |run| > 0 && AllPushes(run)
  {
    PushStmt(FoldAsWritten(JoinLiterals(Fragments(run))))
  }

  /** The replacement of one run, with the seeded fold. */
  function Squash(run: seq<Stmt>): Stmt
    requires |run| > 0 && AllPushes(run)
  {
    PushStmt(SeededFold(JoinLiterals(Fragments(run))))
  }

  // ---------------------------------------------------------------------------------------------
  // What a list outputs

  /** What running generated code shows of itself: the characters it outputs, and where a
      statement that is not a push, and each nested function body, begins and ends. */
  datatype Event = Out(c: char) | Enter | Exit

  function Chars(s: string): (r: seq<Event>)
    ensures |r| == |s|
  {
    seq(|s|, i requires 0 <= i < |s| => Out(s[i]))
  }

  lemma CharsAppend(a: string, b: string)
    ensures Chars(a + b) == Chars(a) + Chars(b)
  {
  }

  /** What a push outputs: each argument converted to a string, in order. */
  function PushOutput(s: Stmt, env: Expr -> Value): string
    requires NeedCompaction(s)
  {
    Concat(s.expression.arguments, env)
  }

  /** A run of single-argument pushes outputs the text its fragments make. */
  lemma {:induction false} RunOutput(run: seq<Stmt>, env: Expr -> Value)
    requires AllPushes(run) && SingleArgPushes(run)
    ensures Concat(Fragments(run), env) == OutputOfPushes(run, env)
    decreases |run|
  {
    if run != [] {
      FragmentsStep(run, env);
      PushesStep(run, env);
      RunOutput(run[..|run| - 1], env);
    }
  }

  lemma FragmentsStep(run: seq<Stmt>, env: Expr -> Value)
    requires run != [] && AllPushes(run)
    ensures Concat(Fragments(run), env) ==
      Concat(Fragments(run[..|run| - 1]), env) + ToStr(Eval(PushArg(run[|run| - 1]), env))
  {
    assert Fragments(run)[..|run| - 1] == Fragments(run[..|run| - 1]);
  }

  lemma PushesStep(run: seq<Stmt>, env: Expr -> Value)
    requires run != [] && AllPushes(run) && SingleArgPushes(run)
    ensures OutputOfPushes(run, env) ==
      OutputOfPushes(run[..|run| - 1], env) + ToStr(Eval(PushArg(run[|run| - 1]), env))
  {
    var last := run[|run| - 1];
    assert last.expression.arguments == [PushArg(last)];
    ConcatSingle(PushArg(last), env);
  }

  /** What a run of pushes outputs, push after push. */
  function OutputOfPushes(run: seq<Stmt>, env: Expr -> Value): string
    requires AllPushes(run)
    decreases |run|
  {
    if run == [] then "" else OutputOfPushes(run[..|run| - 1], env) + PushOutput(run[|run| - 1], env)
  }

  /** The replacement of a run of single-argument pushes outputs what the run did. */
  lemma SquashKeepsOutput(run: seq<Stmt>, env: Expr -> Value)
    requires |run| > 0 && AllPushes(run) && SingleArgPushes(run)
    ensures NeedCompaction(Squash(run))
    ensures PushOutput(Squash(run), env) == OutputOfPushes(run, env)
  {
    var f := JoinLiterals(Fragments(run));
    SeededFoldConcatenates(f, env);
    JoinLiteralsKeepsText(Fragments(run), env);
    RunOutput(run, env);
    assert Squash(run).expression.arguments == [SeededFold(f)];
    assert Concat([SeededFold(f)], env) == Concat([], env) + ToStr(Eval(SeededFold(f), env));
  }

  /** When a run's first argument is a string literal, the seeded replacement is exactly the one
      the source builds. */
  lemma SquashMatchesSourceOnLiteralStart(run: seq<Stmt>)
    requires |run| > 0 && AllPushes(run) && PushArg(run[0]).Str?
    ensures Squash(run) == SquashAsWritten(run)
  {
    JoinLiteralsShape(Fragments(run));
  }

  /** The source's replacement of a run keeps what the run output whenever the first value pushed
      is a string: `+` then concatenates from the first step on. */
  lemma SquashAsWrittenKeepsOutput(run: seq<Stmt>, env: Expr -> Value)
    requires |run| > 0 && AllPushes(run) && SingleArgPushes(run)
    requires Eval(PushArg(run[0]), env).Text?
    ensures PushOutput(SquashAsWritten(run), env) == OutputOfPushes(run, env)
  {
    var frags := Fragments(run);
    var f := JoinLiterals(frags);
    var n := if frags[0].Str? then LitRun(frags) else 1;
    var first := if frags[0].Str? then Str(LiteralText(frags[..n])) else frags[0];
    JoinLiteralsFront(frags, n, first);
    assert f[0] == first;
    FoldFromText(f, env);
    JoinLiteralsKeepsText(frags, env);
    RunOutput(run, env);
    assert SquashAsWritten(run).expression.arguments == [FoldAsWritten(f)];
    assert Concat([FoldAsWritten(f)], env) == Concat([], env) + ToStr(Eval(FoldAsWritten(f), env));
  }

  /** An environment in which `a` is 1 and `b` is 2. */
  function SampleEnv(e: Expr): Value {
    if e == Ident("a") then Number(1) else if e == Ident("b") then Number(2) else Text("")
  }

  lemma SampleValues(env: Expr -> Value)
    requires env == SampleEnv
    ensures Eval(Ident("a"), env) == Number(1) && Eval(Ident("b"), env) == Number(2)
    ensures Concat([Ident("a")], env) == "1" && Concat([Ident("b")], env) == "2"
  {
    assert Ident("b") != Ident("a");
    assert NatToString(1) == "1" && NatToString(2) == "2";
    assert [Ident("a")][..0] == [] && [Ident("b")][..0] == [];
  }

  lemma SamplePushes(run: seq<Stmt>)
    requires run == [PushStmt(Ident("a")), PushStmt(Ident("b"))]
    ensures AllPushes(run) && SingleArgPushes(run)
    ensures OutputOfPushes(run, SampleEnv) == "12"
    ensures Fragments(run) == [Ident("a"), Ident("b")]
  {
    SampleValues(SampleEnv);
    assert run[..1] == [PushStmt(Ident("a"))] && [PushStmt(Ident("a"))][..0] == [];
    assert OutputOfPushes(run[..1], SampleEnv) == "1";
  }

  lemma SampleFold(a: Expr, b: Expr)
    requires a == Ident("a") && b == Ident("b")
    ensures JoinLiterals([a, b]) == [a, b]
    ensures FoldAsWritten([a, b]) == Binary("+", a, b)
    ensures Concat([Binary("+", a, b)], SampleEnv) == "3"
  {
    assert JoinLiterals([b]) == [b];
    assert [a, b][1..] == [b];
    assert [a, b][..1] == [a];
    assert FoldAsWritten([a]) == a;
    SampleValues(SampleEnv);
    assert Eval(Binary("+", a, b), SampleEnv) == Number(3);
    assert NatToString(3) == "3";
    assert [Binary("+", a, b)][..0] == [];
  }

  /** The fold as written adds numbers: `buf.push(a); buf.push(b);` with `a` = 1 and `b` = 2
      outputs `12`, and the run's replacement `buf.push(a + b);` outputs `3`; the seeded fold's
      replacement outputs `12`. */
  lemma AsWrittenFoldAddsNumbers()
    ensures var run := [PushStmt(Ident("a")), PushStmt(Ident("b"))];
      && AllPushes(run)
      && OutputOfPushes(run, SampleEnv) == "12"
      && PushOutput(SquashAsWritten(run), SampleEnv) == "3"
      && PushOutput(Squash(run), SampleEnv) == "12"
  {
    var run := [PushStmt(Ident("a")), PushStmt(Ident("b"))];
    SamplePushes(run);
    SampleFold(Ident("a"), Ident("b"));
    SquashKeepsOutput(run, SampleEnv);
  }

  // ---------------------------------------------------------------------------------------------
  // One list

  /** The list after the compaction loop: each run of pushes, at most `MaxRun` long, is replaced
      by one push, and every other statement is kept. */
  function Compacted(l: seq<Stmt>): seq<Stmt>
    decreases |l|
  {
    if l == [] then []
    else if NeedCompaction(l[0]) then
      var n := RunLength(l);
      [Squash(l[..n])] + Compacted(l[n..])
    else [l[0]] + Compacted(l[1..])
  }

  /** Where compaction starts anew: a run is replaced by its squashed push, any other statement is
      kept. */
  lemma CompactedFront(rest: seq<Stmt>, n: nat, first: Stmt)
    requires rest != []
    requires n == (if NeedCompaction(rest[0]) then RunLength(rest) else 1)
    requires first == (if NeedCompaction(rest[0]) then Squash(rest[..n]) else rest[0])
    ensures Compacted(rest) == [first] + Compacted(rest[n..])
  {
  }

  /** The statements of `l` that are not pushes, in order. */
  function NonPushes(l: seq<Stmt>): seq<Stmt>
    decreases |l|
  {
    if l == [] then [] else (if NeedCompaction(l[0]) then [] else [l[0]]) + NonPushes(l[1..])
  }

  function CountPushes(l: seq<Stmt>): nat
    decreases |l|
  {
    if l == [] then 0 else (if NeedCompaction(l[0]) then 1 else 0) + CountPushes(l[1..])
  }

  lemma {:induction false} NonPushesAppend(a: seq<Stmt>, b: seq<Stmt>)
    ensures NonPushes(a + b) == NonPushes(a) + NonPushes(b)
    ensures CountPushes(a + b) == CountPushes(a) + CountPushes(b)
    decreases |a|
  {
    if a == [] {
      assert a + b == b;
    } else {
      assert (a + b)[1..] == a[1..] + b;
      NonPushesAppend(a[1..], b);
    }
  }

  lemma {:induction false} NonPushesOfRun(run: seq<Stmt>)
    requires AllPushes(run)
    ensures NonPushes(run) == [] && CountPushes(run) == |run|
    decreases |run|
  {
    if run != [] {
      NonPushesOfRun(run[1..]);
    }
  }

  /** The front of a list up to the end of its first run, and the rest. */
  lemma SplitRun(l: seq<Stmt>)
    requires l != [] && NeedCompaction(l[0])
    ensures var n := RunLength(l);
      && l == l[..n] + l[n..] && AllPushes(l[..n])
      && NonPushes(l) == NonPushes(l[n..]) && CountPushes(l) == n + CountPushes(l[n..])
  {
    var n := RunLength(l);
    assert l == l[..n] + l[n..];
    NonPushesAppend(l[..n], l[n..]);
    NonPushesOfRun(l[..n]);
  }

  /** Compaction never moves, drops or adds a statement that is not a push, never makes the list
      longer, and makes each of its pushes out of at most `MaxRun` of the original ones. */
  lemma {:induction false} CompactedKeepsOthers(l: seq<Stmt>)
    ensures NonPushes(Compacted(l)) == NonPushes(l)
    ensures |Compacted(l)| <= |l|
    ensures CountPushes(Compacted(l)) <= CountPushes(l) <= MaxRun * CountPushes(Compacted(l))
    decreases |l|
  {
    if l != [] {
      if NeedCompaction(l[0]) {
        var n := RunLength(l);
        SplitRun(l);
        CompactedRunStep(l);
        CompactedKeepsOthers(l[n..]);
      } else {
        CompactedOtherStep(l);
        CompactedKeepsOthers(l[1..]);
      }
    }
  }

  /** Compacting a list that starts with a run of pushes adds one push to compacting the rest. */
  lemma CompactedRunStep(l: seq<Stmt>)
    requires l != [] && NeedCompaction(l[0])
    ensures var rest := Compacted(l[RunLength(l)..]);
      && |Compacted(l)| == 1 + |rest|
      && NonPushes(Compacted(l)) == NonPushes(rest)
      && CountPushes(Compacted(l)) == 1 + CountPushes(rest)
  {
    var n := RunLength(l);
    var rest := Compacted(l[n..]);
    NonPushesAppend([Squash(l[..n])], rest);
    assert NeedCompaction(Squash(l[..n]));
    assert [Squash(l[..n])][1..] == [];
  }

  /** Compacting a list that starts with any other statement keeps that statement in front. */
  lemma CompactedOtherStep(l: seq<Stmt>)
    requires l != [] && !NeedCompaction(l[0])
    ensures var rest := Compacted(l[1..]);
      && |Compacted(l)| == 1 + |rest|
      && NonPushes(Compacted(l)) == [l[0]] + NonPushes(rest)
      && NonPushes(l) == [l[0]] + NonPushes(l[1..])
      && CountPushes(Compacted(l)) == CountPushes(rest)
      && CountPushes(l) == CountPushes(l[1..])
  {
    var rest := Compacted(l[1..]);
    assert Compacted(l) == [l[0]] + rest;
    assert (Compacted(l))[1..] == rest;
  }

  /** A list without pushes is left as it is. */
  lemma {:induction false} CompactedWithoutPushes(l: seq<Stmt>)
    requires forall i :: 0 <= i < |l| ==> !NeedCompaction(l[i])
    ensures Compacted(l) == l
    decreases |l|
  {
    if l != [] {
      CompactedWithoutPushes(l[1..]);
    }
  }

  // ---------------------------------------------------------------------------------------------
  // The loops of ast_postprocess

  /** Where the joining of literals starts anew: a literal group is replaced by one literal, a
      fragment that is not a literal is kept. */
  lemma JoinLiteralsFront(rest: seq<Expr>, n: nat, first: Expr)
    requires rest != []
    requires n == (if rest[0].Str? then LitRun(rest) else 1)
    requires first == (if rest[0].Str? then Str(LiteralText(rest[..n])) else rest[0])
    ensures JoinLiterals(rest) == [first] + JoinLiterals(rest[n..])
  {
  }

  /** One step of a loop that splices the `n` elements at `j` into `first`, when the rest of the
      result, after `first`, is `outRest`. */
  lemma SpliceStep<T>(before: seq<T>, after: seq<T>, j: nat, n: nat, first: T, outRest: seq<T>, spec: seq<T>)
    requires 0 < n && j + n <= |before|
    requires after == before[..j] + [first] + before[j + n..]
    requires before[..j] + ([first] + outRest) == spec
    ensures j < |after| && after[j + 1..] == before[j..][n..]
    ensures after[..j + 1] + outRest == spec
  {
    assert after[..j + 1] == before[..j] + [first];
  }

  /** `fragment.splice(start, end - start, literal)` for the literal group starting at `start`. */
  method MergeGroup(fragment: seq<Expr>, start: nat) returns (r: seq<Expr>, end: nat)
    requires start < |fragment| && fragment[start].Str?
    ensures end == start + LitRun(fragment[start..]) && end <= |fragment|
    ensures r == fragment[..start] + [Str(LiteralText(fragment[start..end]))] + fragment[end..]
  {
    end := start;
    while end < |fragment| && fragment[end].Str?
      invariant start <= end <= |fragment|
      invariant forall i :: start <= i < end ==> fragment[i].Str?
    {
      end := end + 1;
    }
    LitRunIs(fragment[start..], end - start);
    r := fragment[..start] + [Str(LiteralText(fragment[start..end]))] + fragment[end..];
  }

  /** The loop invariant of `JoinAdjacentLiterals` survives merging the literal group at `j`. */
  lemma JoinGroupStep(before: seq<Expr>, after: seq<Expr>, j: nat, end: nat, spec: seq<Expr>)
    requires j < |before| && before[j].Str?
    requires end == j + LitRun(before[j..]) && end <= |before|
    requires after == before[..j] + [Str(LiteralText(before[j..end]))] + before[end..]
    requires before[..j] + JoinLiterals(before[j..]) == spec
    ensures j < |after| && after[..j + 1] + JoinLiterals(after[j + 1..]) == spec
  {
    var n := end - j;
    LitRunShape(before[j..]);
    SuffixPrefix(before, j, n);
    JoinLiteralsFront(before[j..], n, after[j]);
    SpliceStep(before, after, j, n, after[j], JoinLiterals(before[j..][n..]), spec);
  }

  /** The loop invariant of `JoinAdjacentLiterals` survives stepping over a fragment that is not
      a literal. */
  lemma JoinOtherStep(fragment: seq<Expr>, j: nat, spec: seq<Expr>)
    requires j < |fragment| && !fragment[j].Str?
    requires fragment[..j] + JoinLiterals(fragment[j..]) == spec
    ensures fragment[..j + 1] + JoinLiterals(fragment[j + 1..]) == spec
  {
    Unsplice(fragment, j);
    JoinLiteralsFront(fragment[j..], 1, fragment[j]);
    SpliceStep(fragment, fragment, j, 1, fragment[j], JoinLiterals(fragment[j..][1..]), spec);
  }

  /** The inner `for` loop of packages/then-pug/lib/pug-code-gen.js:146-158, splicing the fragment list in place. */
  method JoinAdjacentLiterals(fragment0: seq<Expr>) returns (fragment: seq<Expr>)
    ensures fragment == JoinLiterals(fragment0)
  {
    fragment := fragment0;
    var j := 0;
    while j < |fragment|
      invariant 0 <= j <= |fragment|
      invariant fragment[..j] + JoinLiterals(fragment[j..]) == JoinLiterals(fragment0)
      decreases |fragment| - j
    {
      ghost var before := fragment;
      if fragment[j].Str? {
        var end;
        fragment, end := MergeGroup(fragment, j);
        JoinGroupStep(before, fragment, j, end, JoinLiterals(fragment0));
      } else {
        JoinOtherStep(fragment, j, JoinLiterals(fragment0));
      }
      j := j + 1;
    }
    assert fragment[..j] == fragment;
  }

  /** The run-gathering `while` loop of packages/then-pug/lib/pug-code-gen.js:140-143. */
  method GatherRun(child: seq<Stmt>, start: nat) returns (end: nat, fragment: seq<Expr>)
    requires start < |child| && NeedCompaction(child[start])
    ensures start < end <= |child|
    ensures end - start == RunLength(child[start..])
    ensures AllPushes(child[start..end]) && fragment == Fragments(child[start..end])
  {
    end := start;
    fragment := [];
    while end < |child| && NeedCompaction(child[end]) && |fragment| < MaxRun
      invariant start <= end <= |child|
      invariant |fragment| == end - start <= MaxRun
      invariant forall i :: start <= i < end ==> NeedCompaction(child[i])
      invariant fragment == seq(end - start, i requires 0 <= i < end - start => PushArg(child[start + i]))
    {
      fragment := fragment + [PushArg(child[end])];
      end := end + 1;
    }
    RunLengthIs(child[start..], end - start);
  }

  /** Lines 140-175 for the run starting at `start`: gather it, join its literals, fold it, and
      splice the one push in its place. */
  method SquashAt(child: seq<Stmt>, start: nat) returns (r: seq<Stmt>, end: nat)
    requires start < |child| && NeedCompaction(child[start])
    ensures end == start + RunLength(child[start..]) && end <= |child|
    ensures AllPushes(child[start..end])
    ensures r == child[..start] + [Squash(child[start..end])] + child[end..]
  {
    var fragment;
    end, fragment := GatherRun(child, start);
    fragment := JoinAdjacentLiterals(fragment);
    var expr := PushStmt(SeededFold(fragment));
    r := child[..start] + [expr] + child[end..];
  }

  /** The loop invariant of `CompactList` survives squashing the run at `i`. */
  lemma CompactRunStep(before: seq<Stmt>, after: seq<Stmt>, i: nat, end: nat, spec: seq<Stmt>)
    requires i < |before| && NeedCompaction(before[i])
    requires end == i + RunLength(before[i..]) && end <= |before|
    requires after == before[..i] + [Squash(before[i..end])] + before[end..]
    requires before[..i] + Compacted(before[i..]) == spec
    ensures i < |after| && after[..i + 1] + Compacted(after[i + 1..]) == spec
  {
    var n := end - i;
    SuffixPrefix(before, i, n);
    CompactedFront(before[i..], n, after[i]);
    SpliceStep(before, after, i, n, after[i], Compacted(before[i..][n..]), spec);
  }

  /** The loop invariant of `CompactList` survives stepping over a statement that is not a push. */
  lemma CompactOtherStep(child: seq<Stmt>, i: nat, spec: seq<Stmt>)
    requires i < |child| && !NeedCompaction(child[i])
    requires child[..i] + Compacted(child[i..]) == spec
    ensures child[..i + 1] + Compacted(child[i + 1..]) == spec
  {
    Unsplice(child, i);
    CompactedFront(child[i..], 1, child[i]);
    SpliceStep(child, child, i, 1, child[i], Compacted(child[i..][1..]), spec);
  }

  /** The outer `for` loop of packages/then-pug/lib/pug-code-gen.js:133-177 on one list, splicing it in place. */
  method CompactList(list: seq<Stmt>) returns (child: seq<Stmt>)
    ensures child == Compacted(list)
  {
    child := list;
    var i := 0;
    while i < |child|
      invariant 0 <= i <= |child|
      invariant child[..i] + Compacted(child[i..]) == Compacted(list)
      decreases |child| - i
    {
      ghost var before := child;
      if NeedCompaction(child[i]) {
        var end;
        child, end := SquashAt(child, i);
        CompactRunStep(before, child, i, end, Compacted(list));
      } else {
        CompactOtherStep(child, i, Compacted(list));
      }
      i := i + 1;
    }
    assert child[..i] == child;
  }
}
