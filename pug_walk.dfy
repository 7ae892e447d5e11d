/**
 * The `walk` of `ast_postprocess` in packages/then-pug/lib/pug-code-gen.js: every node's children
 * are walked first, then every statement list among them is compacted. The property proved is
 * that this does not change what the generated code does: the characters it outputs, and the
 * shape of everything else, nested function bodies included.
 */
module PugWalk {
  import opened PugAst
  import opened PugCompaction

  // ---------------------------------------------------------------------------------------------
  // The walk

  function WalkExpr(e: Expr): Expr
    decreases e
  {
    match e
    case Str(_) => e
    case Ident(_) => e
    case This => e
    case Member(o, p) => Member(WalkExpr(o), WalkExpr(p))
    case Call(c, args) => Call(WalkExpr(c), seq(|args|, i requires 0 <= i < |args| => WalkExpr(args[i])))
    case Binary(op, l, r) => Binary(op, WalkExpr(l), WalkExpr(r))
    case Logical(op, l, r) => Logical(op, WalkExpr(l), WalkExpr(r))
    case Unary(op, a) => Unary(op, WalkExpr(a))
    case Conditional(t, c, a) => Conditional(WalkExpr(t), WalkExpr(c), WalkExpr(a))
    case Object(ps) =>
      Object(seq(|ps|, i requires 0 <= i < |ps| => Property(ps[i].key, WalkExpr(ps[i].value))))
    case Function(params, b, g) => Function(params, WalkBlock(b), g)
    case Yield(a, d) => Yield(WalkExpr(a), d)
  }

  function WalkStmt(s: Stmt): Stmt
    decreases s
  {
    match s
    case ExprStmt(e) => ExprStmt(WalkExpr(e))
    case VarDecl(kind, ds) =>
      VarDecl(kind, seq(|ds|, i requires 0 <= i < |ds| =>
        Declarator(ds[i].id, if ds[i].init.Some? then Some(WalkExpr(ds[i].init.value)) else None)))
    case Return(e) => Return(WalkExpr(e))
    case FunctionDecl(name, params, b, g) => FunctionDecl(name, params, WalkBlock(b), g)
    case Compound(kind, tests, bodies) =>
      Compound(kind, seq(|tests|, i requires 0 <= i < |tests| => WalkExpr(tests[i])),
                     seq(|bodies|, i requires 0 <= i < |bodies| => WalkBlock(bodies[i])))
  }

  /** The statements of a list, each walked. */
  function WalkEach(l: seq<Stmt>): (r: seq<Stmt>)
    ensures |r| == |l|
    decreases l
  {
    seq(|l|, i requires 0 <= i < |l| => WalkStmt(l[i]))
  }

  /** The statements walked one by one, then the list compacted. */
  function WalkBlock(b: Block): Block
    decreases b
  {
    Block(Compacted(WalkEach(b.body)))
  }

  // ---------------------------------------------------------------------------------------------
  // What code does

  function Flatten<T>(ss: seq<seq<T>>): seq<T>
    decreases |ss|
  {
    if ss == [] then [] else ss[0] + Flatten(ss[1..])
  }

  /** The events of an expression: those of the function bodies it holds, in order. */
  function TraceExpr(e: Expr, env: Expr -> Value): seq<Event>
    decreases e
  {
    match e
    case Str(_) => []
    case Ident(_) => []
    case This => []
    case Member(o, p) => TraceExpr(o, env) + TraceExpr(p, env)
    case Call(c, args) =>
      TraceExpr(c, env) + Flatten(seq(|args|, i requires 0 <= i < |args| => TraceExpr(args[i], env)))
    case Binary(_, l, r) => TraceExpr(l, env) + TraceExpr(r, env)
    case Logical(_, l, r) => TraceExpr(l, env) + TraceExpr(r, env)
    case Unary(_, a) => TraceExpr(a, env)
    case Conditional(t, c, a) => TraceExpr(t, env) + TraceExpr(c, env) + TraceExpr(a, env)
    case Object(ps) => Flatten(seq(|ps|, i requires 0 <= i < |ps| => TraceExpr(ps[i].value, env)))
    case Function(_, b, _) => TraceBlock(b, env)
    case Yield(a, _) => TraceExpr(a, env)
  }

  /** The events of a statement: a push outputs its text, any other statement is a bracket
      around the events of what it holds. */
  function TraceStmt(s: Stmt, env: Expr -> Value): seq<Event>
    decreases s
  {
    if NeedCompaction(s) then Chars(PushOutput(s, env))
    else
      [Enter] +
      (match s
       case ExprStmt(e) => TraceExpr(e, env)
       case VarDecl(_, ds) =>
         Flatten(seq(|ds|, i requires 0 <= i < |ds| =>
           if ds[i].init.Some? then TraceExpr(ds[i].init.value, env) else []))
       case Return(e) => TraceExpr(e, env)
       case FunctionDecl(_, _, b, _) => TraceBlock(b, env)
       case Compound(_, tests, bodies) =>
         Flatten(seq(|tests|, i requires 0 <= i < |tests| => TraceExpr(tests[i], env))) +
         Flatten(seq(|bodies|, i requires 0 <= i < |bodies| => TraceBlock(bodies[i], env)))) +
      [Exit]
  }

  function TraceList(l: seq<Stmt>, env: Expr -> Value): seq<Event>
    decreases l
  {
    if l == [] then [] else TraceStmt(l[0], env) + TraceList(l[1..], env)
  }

  function TraceBlock(b: Block, env: Expr -> Value): seq<Event>
    decreases b
  {
    [Enter] + TraceList(b.body, env) + [Exit]
  }

  // ---------------------------------------------------------------------------------------------
  // One list

  lemma {:induction false} TraceListAppend(a: seq<Stmt>, b: seq<Stmt>, env: Expr -> Value)
    ensures TraceList(a + b, env) == TraceList(a, env) + TraceList(b, env)
    decreases |a|
  {
    if a == [] {
      assert a + b == b;
    } else {
      assert (a + b)[0] == a[0];
      assert (a + b)[1..] == a[1..] + b;
      TraceListAppend(a[1..], b, env);
    }
  }

  /** A run of pushes outputs what its pushes output, one after the other. */
  lemma {:induction false} RunTrace(run: seq<Stmt>, env: Expr -> Value)
    requires AllPushes(run)
    ensures TraceList(run, env) == Chars(OutputOfPushes(run, env))
    decreases |run|
  {
    if run != [] {
      var init := run[..|run| - 1];
      var last := run[|run| - 1];
      RunTrace(init, env);
      assert run == init + [last];
      TraceListAppend(init, [last], env);
      assert [last][1..] == [];
      CharsAppend(OutputOfPushes(init, env), PushOutput(last, env));
    }
  }

  /** Compaction keeps the events of a list whose pushes have one argument each. */
  lemma {:induction false} CompactedKeepsTrace(l: seq<Stmt>, env: Expr -> Value)
    requires SingleArgPushes(l)
    ensures TraceList(Compacted(l), env) == TraceList(l, env)
    decreases |l|
  {
    if l != [] {
      var n := if NeedCompaction(l[0]) then RunLength(l) else 1;
      var first := if NeedCompaction(l[0]) then Squash(l[..n]) else l[0];
      CompactedFront(l, n, first);
      assert SingleArgPushes(l[n..]) by {
        assert forall i :: 0 <= i < |l[n..]| ==> l[n..][i] == l[n + i];
      }
      CompactedKeepsTrace(l[n..], env);
      SplitAt(l, n);
      TraceListAppend(l[..n], l[n..], env);
      TraceListAppend([first], Compacted(l[n..]), env);
      assert TraceList([first], env) == TraceStmt(first, env) by {
        assert [first][1..] == [];
      }
      if NeedCompaction(l[0]) {
        SplitRun(l);
        assert SingleArgPushes(l[..n]) by {
          assert forall i :: 0 <= i < n ==> l[..n][i] == l[i];
        }
        SquashKeepsOutput(l[..n], env);
        RunTrace(l[..n], env);
      } else {
        Prefix1(l);
        assert TraceList([l[0]], env) == TraceStmt(l[0], env) by {
          assert [l[0]][1..] == [];
        }
      }
    }
  }

  // ---------------------------------------------------------------------------------------------
  // The whole tree

  /** Every push in the tree, nested function bodies included, has exactly one argument, as every
      push the code generator builds does. */
  predicate SingleArgsExpr(e: Expr)
    decreases e
  {
    match e
    case Str(_) => true
    case Ident(_) => true
    case This => true
    case Member(o, p) => SingleArgsExpr(o) && SingleArgsExpr(p)
    case Call(c, args) => SingleArgsExpr(c) && forall i :: 0 <= i < |args| ==> SingleArgsExpr(args[i])
    case Binary(_, l, r) => SingleArgsExpr(l) && SingleArgsExpr(r)
    case Logical(_, l, r) => SingleArgsExpr(l) && SingleArgsExpr(r)
    case Unary(_, a) => SingleArgsExpr(a)
    case Conditional(t, c, a) => SingleArgsExpr(t) && SingleArgsExpr(c) && SingleArgsExpr(a)
    case Object(ps) => forall i :: 0 <= i < |ps| ==> SingleArgsExpr(ps[i].value)
    case Function(_, b, _) => SingleArgsBlock(b)
    case Yield(a, _) => SingleArgsExpr(a)
  }

  predicate SingleArgsStmt(s: Stmt)
    decreases s
  {
    && (NeedCompaction(s) ==> |s.expression.arguments| == 1)
    && match s
       case ExprStmt(e) => SingleArgsExpr(e)
       case VarDecl(_, ds) => forall i :: 0 <= i < |ds| && ds[i].init.Some? ==> SingleArgsExpr(ds[i].init.value)
       case Return(e) => SingleArgsExpr(e)
       case FunctionDecl(_, _, b, _) => SingleArgsBlock(b)
       case Compound(_, tests, bodies) =>
         && (forall i :: 0 <= i < |tests| ==> SingleArgsExpr(tests[i]))
         && (forall i :: 0 <= i < |bodies| ==> SingleArgsBlock(bodies[i]))
  }

  predicate SingleArgsBlock(b: Block)
    decreases b
  {
    forall i :: 0 <= i < |b.body| ==> SingleArgsStmt(b.body[i])
  }

  /** An environment whose values do not depend on the statement lists inside the expressions it
      gives values to: compacting those lists leaves the values as they were. */
  ghost predicate WalkStable(env: Expr -> Value) {
    forall e :: env(WalkExpr(e)) == env(e)
  }

  lemma FlattenEqual<T>(a: seq<seq<T>>, b: seq<seq<T>>)
    requires a == b
    ensures Flatten(a) == Flatten(b)
  {
  }

  /** The walk keeps an expression's value and its events. */
  lemma {:induction false} WalkExprKeeps(e: Expr, env: Expr -> Value)
    requires SingleArgsExpr(e) && WalkStable(env)
    ensures Eval(WalkExpr(e), env) == Eval(e, env)
    ensures TraceExpr(WalkExpr(e), env) == TraceExpr(e, env)
    decreases e, 1
  {
    match e
    case Str(_) =>
    case Ident(_) =>
    case This =>
    case Call(_, _) =>
      WalkCallKeeps(e, env);
    case Binary(_, l, r) =>
      WalkExprKeeps(l, env);
      WalkExprKeeps(r, env);
    case Object(_) =>
      WalkObjectKeeps(e, env);
    case Member(_, _) =>
      WalkNestedKeeps(e, env);
    case Logical(_, _, _) =>
      WalkNestedKeeps(e, env);
    case Conditional(_, _, _) =>
      WalkNestedKeeps(e, env);
    case _ =>
      WalkWrapperKeeps(e, env);
  }

  /** The expressions that hold two or three other expressions. */
  lemma {:induction false} WalkNestedKeeps(e: Expr, env: Expr -> Value)
    requires e.Member? || e.Logical? || e.Conditional?
    requires SingleArgsExpr(e) && WalkStable(env)
    ensures TraceExpr(WalkExpr(e), env) == TraceExpr(e, env)
    decreases e, 0
  {
    match e
    case Member(o, p) =>
      WalkExprKeeps(o, env);
      WalkExprKeeps(p, env);
    case Logical(_, l, r) =>
      WalkExprKeeps(l, env);
      WalkExprKeeps(r, env);
    case Conditional(t, c, a) =>
      WalkExprKeeps(t, env);
      WalkExprKeeps(c, env);
      WalkExprKeeps(a, env);
  }

  /** The expressions that hold one other expression or a block. */
  lemma {:induction false} WalkWrapperKeeps(e: Expr, env: Expr -> Value)
    requires e.Unary? || e.Function? || e.Yield?
    requires SingleArgsExpr(e) && WalkStable(env)
    ensures TraceExpr(WalkExpr(e), env) == TraceExpr(e, env)
    decreases e, 0
  {
    match e
    case Unary(_, a) =>
      WalkExprKeeps(a, env);
    case Function(_, b, _) =>
      WalkBlockKeeps(b, env);
    case Yield(a, _) =>
      WalkExprKeeps(a, env);
  }

  lemma {:induction false} WalkCallKeeps(e: Expr, env: Expr -> Value)
    requires e.Call? && SingleArgsExpr(e) && WalkStable(env)
    ensures TraceExpr(WalkExpr(e), env) == TraceExpr(e, env)
    decreases e, 0
  {
    var args := e.arguments;
    WalkExprKeeps(e.callee, env);
    var args' := seq(|args|, i requires 0 <= i < |args| => WalkExpr(args[i]));
    forall i | 0 <= i < |args| {
      WalkExprKeeps(args[i], env);
    }
    assert seq(|args'|, i requires 0 <= i < |args'| => TraceExpr(args'[i], env))
        == seq(|args|, i requires 0 <= i < |args| => TraceExpr(args[i], env));
  }

  lemma {:induction false} WalkObjectKeeps(e: Expr, env: Expr -> Value)
    requires e.Object? && SingleArgsExpr(e) && WalkStable(env)
    ensures TraceExpr(WalkExpr(e), env) == TraceExpr(e, env)
    decreases e, 0
  {
    var ps := e.properties;
    var ps' := seq(|ps|, i requires 0 <= i < |ps| => Property(ps[i].key, WalkExpr(ps[i].value)));
    forall i | 0 <= i < |ps| {
      WalkExprKeeps(ps[i].value, env);
    }
    assert seq(|ps'|, i requires 0 <= i < |ps'| => TraceExpr(ps'[i].value, env))
        == seq(|ps|, i requires 0 <= i < |ps| => TraceExpr(ps[i].value, env));
  }

  /** The walk keeps a statement's events, and whether it is a one-argument push. */
  lemma {:induction false} WalkStmtKeeps(s: Stmt, env: Expr -> Value)
    requires SingleArgsStmt(s) && WalkStable(env)
    ensures NeedCompaction(WalkStmt(s)) <==> NeedCompaction(s)
    ensures NeedCompaction(s) ==> |WalkStmt(s).expression.arguments| == 1
    ensures TraceStmt(WalkStmt(s), env) == TraceStmt(s, env)
    decreases s, 2
  {
    match s
    case ExprStmt(e) =>
      WalkExprStmtKeeps(s, env);
    case VarDecl(_, _) =>
      WalkVarDeclKeeps(s, env);
    case Return(e) =>
      WalkExprKeeps(e, env);
    case FunctionDecl(_, _, b, _) =>
      WalkBlockKeeps(b, env);
    case Compound(_, _, _) =>
      WalkCompoundKeeps(s, env);
  }

  lemma {:induction false} WalkExprStmtKeeps(s: Stmt, env: Expr -> Value)
    requires s.ExprStmt? && SingleArgsStmt(s) && WalkStable(env)
    ensures NeedCompaction(WalkStmt(s)) <==> NeedCompaction(s)
    ensures NeedCompaction(s) ==> |WalkStmt(s).expression.arguments| == 1
    ensures TraceStmt(WalkStmt(s), env) == TraceStmt(s, env)
    decreases s, 1
  {
    var e := s.expression;
    NeedCompactionIsPush(s);
    NeedCompactionIsPush(WalkStmt(s));
    if e.Call? {
      WalkKeepsBufPush(e.callee);
    }
    if NeedCompaction(s) {
      WalkPushKeeps(s, env);
    } else {
      WalkExprKeeps(e, env);
    }
  }

  /** The walk leaves `buf.push` alone and makes it out of nothing else. */
  lemma WalkKeepsBufPush(c: Expr)
    ensures WalkExpr(c) == BufPush <==> c == BufPush
  {
    if c.Member? {
      assert WalkExpr(c) == Member(WalkExpr(c.obj), WalkExpr(c.property));
    }
  }

  lemma {:induction false} WalkPushKeeps(s: Stmt, env: Expr -> Value)
    requires NeedCompaction(s) && SingleArgsStmt(s) && WalkStable(env)
    ensures WalkStmt(s) == PushStmt(WalkExpr(PushArg(s)))
    ensures TraceStmt(WalkStmt(s), env) == TraceStmt(s, env)
    decreases s, 0
  {
    var e := s.expression;
    var a := e.arguments[0];
    assert e.arguments == [a];
    WalkExprKeeps(a, env);
    assert WalkExpr(e).arguments == [WalkExpr(a)];
    ConcatSingle(a, env);
    ConcatSingle(WalkExpr(a), env);
  }

  lemma {:induction false} WalkVarDeclKeeps(s: Stmt, env: Expr -> Value)
    requires s.VarDecl? && SingleArgsStmt(s) && WalkStable(env)
    ensures TraceStmt(WalkStmt(s), env) == TraceStmt(s, env)
    decreases s, 0
  {
    var ds := s.declarations;
    var ds' := seq(|ds|, i requires 0 <= i < |ds| =>
      Declarator(ds[i].id, if ds[i].init.Some? then Some(WalkExpr(ds[i].init.value)) else None));
    forall i | 0 <= i < |ds| && ds[i].init.Some? {
      WalkExprKeeps(ds[i].init.value, env);
    }
    assert seq(|ds'|, i requires 0 <= i < |ds'| => if ds'[i].init.Some? then TraceExpr(ds'[i].init.value, env) else [])
        == seq(|ds|, i requires 0 <= i < |ds| => if ds[i].init.Some? then TraceExpr(ds[i].init.value, env) else []);
  }

  lemma {:induction false} WalkCompoundKeeps(s: Stmt, env: Expr -> Value)
    requires s.Compound? && SingleArgsStmt(s) && WalkStable(env)
    ensures TraceStmt(WalkStmt(s), env) == TraceStmt(s, env)
    decreases s, 0
  {
    var tests, bodies := s.tests, s.bodies;
    var tests' := seq(|tests|, i requires 0 <= i < |tests| => WalkExpr(tests[i]));
    var bodies' := seq(|bodies|, i requires 0 <= i < |bodies| => WalkBlock(bodies[i]));
    forall i | 0 <= i < |tests| {
      WalkExprKeeps(tests[i], env);
    }
    forall i | 0 <= i < |bodies| {
      WalkBlockKeeps(bodies[i], env);
    }
    assert seq(|tests'|, i requires 0 <= i < |tests'| => TraceExpr(tests'[i], env))
        == seq(|tests|, i requires 0 <= i < |tests| => TraceExpr(tests[i], env));
    assert seq(|bodies'|, i requires 0 <= i < |bodies'| => TraceBlock(bodies'[i], env))
        == seq(|bodies|, i requires 0 <= i < |bodies| => TraceBlock(bodies[i], env));
  }

  /** Lists whose statements have the same events one by one have the same events. */
  lemma {:induction false} TraceListPointwise(a: seq<Stmt>, b: seq<Stmt>, env: Expr -> Value)
    requires |a| == |b|
    requires forall i :: 0 <= i < |a| ==> TraceStmt(a[i], env) == TraceStmt(b[i], env)
    ensures TraceList(a, env) == TraceList(b, env)
    decreases |a|
  {
    if a != [] {
      TraceListPointwise(a[1..], b[1..], env);
    }
  }

  /** The walk keeps the events of a block, nested blocks included: compacting the generated code
      does not change what it outputs. */
  lemma {:induction false} WalkBlockKeeps(b: Block, env: Expr -> Value)
    requires SingleArgsBlock(b) && WalkStable(env)
    ensures TraceBlock(WalkBlock(b), env) == TraceBlock(b, env)
    decreases b, 1
  {
    var l := b.body;
    var walked := WalkEach(l);
    forall i | 0 <= i < |l|
      ensures TraceStmt(walked[i], env) == TraceStmt(l[i], env)
      ensures NeedCompaction(walked[i]) ==> |walked[i].expression.arguments| == 1
    {
      WalkStmtKeeps(l[i], env);
    }
    TraceListPointwise(walked, l, env);
    assert SingleArgPushes(walked);
    CompactedKeepsTrace(walked, env);
  }

  // ---------------------------------------------------------------------------------------------
  // The loops of walk

  /** `walk` on a node holding the statement list `list`: each statement is walked (the
      `forEach` of packages/then-pug/lib/pug-code-gen.js:127-131), then the list is compacted in place. */
  method PostProcessList(list: seq<Stmt>) returns (child: seq<Stmt>)
    ensures child == WalkBlock(Block(list)).body
  {
    child := list;
    for i := 0 to |child|
      invariant |child| == |list|
      invariant forall j :: 0 <= j < i ==> child[j] == WalkStmt(list[j])
      invariant forall j :: i <= j < |child| ==> child[j] == list[j]
    {
      child := child[i := WalkStmt(child[i])];
    }
    assert child == WalkEach(list);
    child := CompactList(child);
  }
}
