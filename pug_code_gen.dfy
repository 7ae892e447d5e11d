/**
 * The syntax-tree builders of packages/then-pug/lib/pug-code-gen.js: the `with` wrapper that binds
 * the template's free variables, the declarations that open the template function, the buffered
 * push and the return of the generator, and the flags the constructor forces.
 *
 * What the built expressions evaluate to is given by a small evaluator over JavaScript values, for
 * the expression forms these builders produce.
 */
module PugCodeGen {
  import opened PugAst

  /** `INTERNAL_VARIABLES` */
  const InternalVariables: seq<string> :=
    ["pug", "pug_mixins", "pug_interp", "pug_debug_filename", "pug_debug_line", "pug_debug_sources",
     "pug_html", "buf"]

  // ---------------------------------------------------------------------------------------------
  // The variables ast_with binds

  /** The names `ast_with` never binds: the globals of the options (absent ones read as none), the
      internal variables, `pug_` followed by each runtime function used, and `undefined`, `this`
      and `locals`. */
  function Exclusions(globals: seq<string>, runtimeFunctionsUsed: seq<string>): seq<string> {
    globals + InternalVariables
    + seq(|runtimeFunctionsUsed|, i requires 0 <= i < |runtimeFunctionsUsed| => "pug_" + runtimeFunctionsUsed[i])
    + ["undefined", "this", "locals"]
  }

  /** A name is excluded exactly when it is one of the four kinds of names above. */
  lemma ExclusionsMembers(globals: seq<string>, runtimeFunctionsUsed: seq<string>, name: string)
    ensures name in Exclusions(globals, runtimeFunctionsUsed) <==>
      || name in globals
      || name in InternalVariables
      || (exists i :: 0 <= i < |runtimeFunctionsUsed| && name == "pug_" + runtimeFunctionsUsed[i])
      || name in ["undefined", "this", "locals"]
  {
    var pre := seq(|runtimeFunctionsUsed|, i requires 0 <= i < |runtimeFunctionsUsed| => "pug_" + runtimeFunctionsUsed[i]);
    if exists i :: 0 <= i < |runtimeFunctionsUsed| && name == "pug_" + runtimeFunctionsUsed[i] {
      var i :| 0 <= i < |runtimeFunctionsUsed| && name == "pug_" + runtimeFunctionsUsed[i];
      assert pre[i] == name;
    }
  }

  /** `found.filter(v => exclude.indexOf(v) === -1)` */
  function WithVars(found: seq<string>, exclude: seq<string>): (vars: seq<string>)
    ensures forall v :: v in vars <==> v in found && v !in exclude
    decreases |found|
  {
    if found == [] then []
    else (if found[0] in exclude then [] else [found[0]]) + WithVars(found[1..], exclude)
  }

  /** `a` is `b` with some elements left out, the rest in their order. */
  predicate IsSubsequence<T(==)>(a: seq<T>, b: seq<T>)
    decreases |b|
  {
    if a == [] then true
    else if b == [] then false
    else if a[0] == b[0] then IsSubsequence(a[1..], b[1..])
    else IsSubsequence(a, b[1..])
  }

  /** The variables keep the order in which they were found. */
  lemma {:induction false} WithVarsInOrder(found: seq<string>, exclude: seq<string>)
    ensures IsSubsequence(WithVars(found, exclude), found)
    decreases |found|
  {
    if found != [] {
      WithVarsInOrder(found[1..], exclude);
      var rest := WithVars(found[1..], exclude);
      if found[0] !in exclude {
        assert WithVars(found, exclude) == [found[0]] + rest;
        assert ([found[0]] + rest)[1..] == rest;
      } else {
        assert WithVars(found, exclude) == rest;
        SubsequenceSkip(rest, found);
      }
    }
  }

  /** A subsequence stays one when its first element is dropped. */
  lemma {:induction false} SubsequenceTail<T>(a: seq<T>, c: seq<T>)
    requires a != [] && IsSubsequence(a, c)
    ensures IsSubsequence(a[1..], c)
    decreases |c|, 1
  {
    if a[0] == c[0] {
      SubsequenceSkip(a[1..], c);
    } else {
      SubsequenceTail(a, c[1..]);
      SubsequenceSkip(a[1..], c);
    }
  }

  /** A subsequence of the tail is a subsequence of the whole. */
  lemma {:induction false} SubsequenceSkip<T>(a: seq<T>, b: seq<T>)
    requires b != [] && IsSubsequence(a, b[1..])
    ensures IsSubsequence(a, b)
    decreases |b|, 0
  {
    if a != [] && a[0] == b[0] {
      SubsequenceTail(a, b[1..]);
    }
  }

  /** No excluded name is bound: neither an option global, nor an internal variable such as
      `pug_mixins` or `buf`, nor a runtime function, nor `undefined`, `this` or `locals`. */
  lemma WithVarsExcluded(found: seq<string>, globals: seq<string>, runtimeFunctionsUsed: seq<string>, v: string)
    requires v in WithVars(found, Exclusions(globals, runtimeFunctionsUsed))
    ensures v in found
    ensures v !in globals && v !in InternalVariables && v !in ["undefined", "this", "locals"]
    ensures forall i :: 0 <= i < |runtimeFunctionsUsed| ==> v != "pug_" + runtimeFunctionsUsed[i]
  {
    ExclusionsMembers(globals, runtimeFunctionsUsed, v);
  }

  // ---------------------------------------------------------------------------------------------
  // JavaScript values of the built expressions

  /** The values the built expressions produce. `Inherited(name)` is the member `name` every object
      inherits from `Object.prototype`. */
  datatype JsVal =
    | Undefined
    | Null
    | Boolean(b: bool)
    | Text(s: string)
    | Obj(props: map<string, JsVal>)
    | Inherited(name: string)

  /** The errors evaluation can throw. */
  datatype ErrorKind = TypeError | ReferenceError

  /** How evaluating an expression completes: with a value, or by throwing. */
  datatype Completion = Normal(value: JsVal) | Throw(error: ErrorKind)

  /** The members of `Object.prototype`, which `in` and member access find on every object. */
  const ObjectPrototype: set<string> :=
    {"constructor", "hasOwnProperty", "isPrototypeOf", "propertyIsEnumerable", "toLocaleString",
     "toString", "valueOf", "__proto__", "__defineGetter__", "__defineSetter__",
     "__lookupGetter__", "__lookupSetter__"}

  function Truthy(v: JsVal): bool {
    match v
    case Undefined => false
    case Null => false
    case Boolean(b) => b
    case Text(s) => s != ""
    case Obj(_) => true
    case Inherited(_) => true
  }

  function TypeOf(v: JsVal): string {
    match v
    case Undefined => "undefined"
    case Null => "object"
    case Boolean(_) => "boolean"
    case Text(_) => "string"
    case Obj(_) => "object"
    case Inherited(n) => if n == "__proto__" then "object" else "function"
  }

  /** An object: a plain object, or one of the members inherited from `Object.prototype`. */
  predicate IsObject(v: JsVal) {
    v.Obj? || v.Inherited?
  }

  /** `k in o` on an object: an own property, or one inherited from `Object.prototype`. */
  predicate Has(o: JsVal, k: string)
    requires IsObject(o)
  {
    (o.Obj? && k in o.props) || k in ObjectPrototype
  }

  /** `o.k` on a value that is neither `undefined` nor `null`: the own property, else the inherited
      one, else `undefined`. */
  function Prop(o: JsVal, k: string): JsVal {
    if o.Obj? && k in o.props then o.props[k]
    else if k in ObjectPrototype then Inherited(k)
    else Undefined
  }

  /** `o.k`, which throws on `undefined` and `null`. */
  function Get(o: JsVal, k: string): Completion {
    if o.Undefined? || o.Null? then Throw(TypeError) else Normal(Prop(o, k))
  }

  /** A variable's value in `scope` when it is declared there, `undefined` otherwise. */
  function Lookup(scope: map<string, JsVal>, x: string): JsVal {
    if x in scope then scope[x] else Undefined
  }

  /** The completion of the expression forms the builders produce, in `scope`. Reading an
      undeclared variable throws, except under `typeof`. Forms the builders do not produce
      evaluate to `undefined`. */
  function Eval(e: Expr, scope: map<string, JsVal>): Completion
    decreases e
  {
    match e
    case Str(s) => Normal(Text(s))
    case Ident(x) =>
      if x == "undefined" then Normal(Undefined)
      else if x in scope then Normal(scope[x])
      else Throw(ReferenceError)
    case Member(o, p) =>
      if !p.Ident? then Normal(Undefined)
      else
        var ov := Eval(o, scope);
        if ov.Throw? then ov else Get(ov.value, p.name)
    case Logical(op, l, r) =>
      var lv := Eval(l, scope);
      if lv.Throw? then lv
      else if op == "||" then (if Truthy(lv.value) then lv else Eval(r, scope))
      else if op == "&&" then (if Truthy(lv.value) then Eval(r, scope) else lv)
      else Normal(Undefined)
    case Unary(op, a) =>
      if op != "typeof" then Normal(Undefined)
      else if a.Ident? && a.name != "undefined" && a.name !in scope then Normal(Text("undefined"))
      else
        var av := Eval(a, scope);
        if av.Throw? then av else Normal(Text(TypeOf(av.value)))
    case Binary(op, l, r) =>
      var lv := Eval(l, scope);
      if lv.Throw? then lv
      else
        var rv := Eval(r, scope);
        if rv.Throw? then rv
        else if op == "in" then
          if !IsObject(rv.value) then Throw(TypeError)
          else if lv.value.Text? then Normal(Boolean(Has(rv.value, lv.value.s)))
          else Normal(Undefined)
        else if op == "!==" then Normal(Boolean(lv.value != rv.value))
        else Normal(Undefined)
    case Conditional(t, c, a) =>
      var tv := Eval(t, scope);
      if tv.Throw? then tv else if Truthy(tv.value) then Eval(c, scope) else Eval(a, scope)
    case Object(ps) => if ps == [] then Normal(Obj(map[])) else Normal(Undefined)
    case _ => Normal(Undefined)
  }

  // ---------------------------------------------------------------------------------------------
  // ast_with

  /** `'v' in _ref ? _ref.v : (typeof v !== 'undefined' ? v : undefined)` */
  function Binding(v: string): Expr {
    Conditional(
      Binary("in", Str(v), Ident("_ref")),
      Member(Ident("_ref"), Ident(v)),
      Conditional(Binary("!==", Unary("typeof", Ident(v)), Str("undefined")), Ident(v), Ident("undefined")))
  }

  /** What a template variable means inside the wrapper: the member of `_ref` (the locals) when it
      has one, own or inherited, and the variable of the enclosing scope otherwise. */
  function BoundValue(v: string, scope: map<string, JsVal>): JsVal {
    var ref := Lookup(scope, "_ref");
    if IsObject(ref) && Has(ref, v) then Prop(ref, v) else Lookup(scope, v)
  }

  /** With `_ref` an object, each binding evaluates to the locals' member first, own or inherited
      from `Object.prototype`, then the outer variable, then `undefined`; it never throws, even for
      an undeclared variable. With `_ref` neither an object nor absent, `in` throws a `TypeError`. */
  lemma BindingReadsLocalsFirst(v: string, scope: map<string, JsVal>)
    requires v != "undefined" && "_ref" in scope
    ensures IsObject(scope["_ref"]) ==> Eval(Binding(v), scope) == Normal(BoundValue(v, scope))
    ensures !IsObject(scope["_ref"]) ==> Eval(Binding(v), scope) == Throw(TypeError)
  {
    var ref := scope["_ref"];
    var test := Binary("in", Str(v), Ident("_ref"));
    assert Eval(Ident("_ref"), scope) == Normal(ref);
    if IsObject(ref) {
      assert Eval(test, scope) == Normal(Boolean(Has(ref, v)));
      if Has(ref, v) {
        assert Eval(Member(Ident("_ref"), Ident(v)), scope) == Normal(Prop(ref, v));
      } else {
        var outer := Lookup(scope, v);
        var defined := Binary("!==", Unary("typeof", Ident(v)), Str("undefined"));
        if v in scope {
          assert Eval(Ident(v), scope) == Normal(outer);
        }
        assert Eval(Unary("typeof", Ident(v)), scope) == Normal(Text(TypeOf(outer)));
        assert Eval(defined, scope) == Normal(Boolean(TypeOf(outer) != "undefined"));
        assert TypeOf(outer) == "undefined" ==> outer == Undefined;
        assert Eval(Conditional(defined, Ident(v), Ident("undefined")), scope) == Normal(outer);
      }
    } else {
      assert Eval(test, scope) == Throw(TypeError);
    }
  }

  /** The arguments of the wrapper's `.call`: `this`, then one binding per variable. */
  function CallArguments(vars: seq<string>): (args: seq<Expr>)
    ensures |args| == |vars| + 1 && args[0] == This
    ensures forall i :: 0 <= i < |vars| ==> args[i + 1] == Binding(vars[i])
  {
    [This] + seq(|vars|, i requires 0 <= i < |vars| => Binding(vars[i]))
  }

  /** `ast_with`, with the globals `findGlobals` found in the template given as `found`:
      `var _ret = (function (vars) { function* gen() { ast } return {v: gen}; }).call(this, bindings);` */
  function AstWith(ast: seq<Stmt>, found: seq<string>, globals: seq<string>, runtimeFunctionsUsed: seq<string>,
                   useGenerators: bool): seq<Stmt>
  {
    var vars := WithVars(found, Exclusions(globals, runtimeFunctionsUsed));
    var gen := FunctionDecl("gen", [], Block(ast), useGenerators);
    var wrapper := Function(vars, Block([gen, Return(Object([Property("v", Ident("gen"))]))]), false);
    [VarDecl("var", [Declarator("_ret", Some(Call(Member(wrapper, Ident("call")), CallArguments(vars))))])]
  }

  /** The wrapper is applied whatever the variables (`vars.length > -1` always holds): the result
      declares `_ret` only, its generator `gen` holds the template unchanged, the wrapper's
      parameters are the variables in the order found, and with `_ref` an object, each parameter
      receives the locals' member of that name, or else the outer variable. With `_ref` not an
      object, every binding throws a `TypeError`. */
  lemma AstWithBindsVariables(ast: seq<Stmt>, found: seq<string>, globals: seq<string>,
                              runtimeFunctionsUsed: seq<string>, useGenerators: bool, scope: map<string, JsVal>)
    requires "_ref" in scope
    ensures var r := AstWith(ast, found, globals, runtimeFunctionsUsed, useGenerators);
      var vars := WithVars(found, Exclusions(globals, runtimeFunctionsUsed));
      && |r| == 1 && r[0].VarDecl? && |r[0].declarations| == 1 && r[0].declarations[0].id == "_ret"
      && var call := r[0].declarations[0].init.value;
      && call.Call? && call.callee.Member? && call.callee.obj.Function?
      && var wrapper := call.callee.obj;
      && wrapper.params == vars && IsSubsequence(vars, found)
      && wrapper.body.body[0] == FunctionDecl("gen", [], Block(ast), useGenerators)
      && |call.arguments| == |vars| + 1
      && (IsObject(scope["_ref"]) ==>
            forall i :: 0 <= i < |vars| ==> Eval(call.arguments[i + 1], scope) == Normal(BoundValue(vars[i], scope)))
      && (!IsObject(scope["_ref"]) ==>
            forall i :: 1 <= i < |call.arguments| ==> Eval(call.arguments[i], scope) == Throw(TypeError))
  {
    var vars := WithVars(found, Exclusions(globals, runtimeFunctionsUsed));
    WithVarsInOrder(found, Exclusions(globals, runtimeFunctionsUsed));
    forall i | 0 <= i < |vars|
      ensures Eval(CallArguments(vars)[i + 1], scope) ==
        if IsObject(scope["_ref"]) then Normal(BoundValue(vars[i], scope)) else Throw(TypeError)
    {
      WithVarsExcluded(found, globals, runtimeFunctionsUsed, vars[i]);
      BindingReadsLocalsFirst(vars[i], scope);
    }
  }

  // ---------------------------------------------------------------------------------------------
  // The other builders

  /** `var pug_mixins = locals.pug_mixins || {}, pug_interp, _ref = locals || {};` */
  function AstVariableDeclaration(): Stmt {
    VarDecl("var", [
      Declarator("pug_mixins", Some(Logical("||", Member(Ident("locals"), Ident("pug_mixins")), Object([])))),
      Declarator("pug_interp", None),
      Declarator("_ref", Some(Logical("||", Ident("locals"), Object([]))))])
  }

  /** How running a `var` statement completes: with the scope it leaves, or by throwing. */
  datatype Outcome = Done(scope: map<string, JsVal>) | Threw(error: ErrorKind)

  /** The declarators of a `var` statement, run in order: an initialiser is evaluated in the scope
      so far and assigned; a declarator without one leaves a declared variable as it is and makes
      an undeclared one `undefined`. The first throw ends the statement. */
  function Declare(ds: seq<Declarator>, scope: map<string, JsVal>): Outcome
    decreases |ds|
  {
    if ds == [] then Done(scope)
    else if ds[0].init.None? then Declare(ds[1..], scope[ds[0].id := Lookup(scope, ds[0].id)])
    else
      var v := Eval(ds[0].init.value, scope);
      if v.Throw? then Threw(v.error) else Declare(ds[1..], scope[ds[0].id := v.value])
  }

  /** The declarations let mixins be injected through the locals. Without locals (`undefined` or
      `null`), reading `locals.pug_mixins` throws a `TypeError` and nothing is declared. Otherwise
      `pug_mixins` is `locals.pug_mixins` when that is truthy and a fresh empty object otherwise,
      `pug_interp` is `undefined`, and `_ref` is the locals when truthy and an empty object
      otherwise; so with object or falsy locals, `_ref` is an object, as the bindings of `ast_with`
      need. */
  lemma DeclarationsReadLocals(locals: JsVal)
    ensures var d := AstVariableDeclaration().declarations;
      |d| == 3 && d[0].id == "pug_mixins" && d[1].id == "pug_interp" && d[2].id == "_ref"
    ensures var r := Declare(AstVariableDeclaration().declarations, map["locals" := locals]);
      (locals.Undefined? || locals.Null?) ==> r == Threw(TypeError)
    ensures var r := Declare(AstVariableDeclaration().declarations, map["locals" := locals]);
      !(locals.Undefined? || locals.Null?) ==>
        && r.Done?
        && r.scope.Keys == {"locals", "pug_mixins", "pug_interp", "_ref"}
        && r.scope["locals"] == locals
        && r.scope["pug_mixins"] == (if Truthy(Prop(locals, "pug_mixins")) then Prop(locals, "pug_mixins") else Obj(map[]))
        && r.scope["pug_interp"] == Undefined
        && r.scope["_ref"] == (if Truthy(locals) then locals else Obj(map[]))
        && (IsObject(locals) || !Truthy(locals) ==> IsObject(r.scope["_ref"]))
  {
    var ds := AstVariableDeclaration().declarations;
    var s0 := map["locals" := locals];
    MixinsInit(locals, s0);
    if !(locals.Undefined? || locals.Null?) {
      var mixins := if Truthy(Prop(locals, "pug_mixins")) then Prop(locals, "pug_mixins") else Obj(map[]);
      var s1 := s0["pug_mixins" := mixins];
      var s2 := s1["pug_interp" := Undefined];
      assert Declare(ds, s0) == Declare(ds[1..], s1);
      assert Declare(ds[1..], s1) == Declare(ds[2..], s2);
      RefInit(locals, s2);
      var s3 := s2["_ref" := if Truthy(locals) then locals else Obj(map[])];
      assert Declare(ds[2..], s2) == Declare([], s3);
    }
  }

  /** `locals.pug_mixins || {}` */
  lemma MixinsInit(locals: JsVal, scope: map<string, JsVal>)
    requires "locals" in scope && scope["locals"] == locals
    ensures var e := AstVariableDeclaration().declarations[0].init.value;
      Eval(e, scope) ==
        if locals.Undefined? || locals.Null? then Throw(TypeError)
        else Normal(if Truthy(Prop(locals, "pug_mixins")) then Prop(locals, "pug_mixins") else Obj(map[]))
  {
    assert Eval(Ident("locals"), scope) == Normal(locals);
  }

  /** `locals || {}` */
  lemma RefInit(locals: JsVal, scope: map<string, JsVal>)
    requires "locals" in scope && scope["locals"] == locals
    ensures Eval(AstVariableDeclaration().declarations[2].init.value, scope) ==
      Normal(if Truthy(locals) then locals else Obj(map[]))
  {
    assert Eval(Ident("locals"), scope) == Normal(locals);
  }

  /** `return _ret.v;` */
  function AstReturn(): seq<Stmt> {
    [Return(Member(Ident("_ret"), Ident("v")))]
  }

  /** The generator returns the `gen` function the wrapper of `ast_with` exposes as `v`. */
  lemma ReturnReadsGenerator(gen: JsVal, scope: map<string, JsVal>)
    requires Lookup(scope, "_ret") == Obj(map["v" := gen])
    ensures |AstReturn()| == 1 && AstReturn()[0].Return?
    ensures Eval(AstReturn()[0].argument, scope) == Normal(gen)
  {
  }

  /** `ast_buffer`: the statement `buf.push(node);` */
  function AstBuffer(node: Expr): seq<Stmt> {
    [PushStmt(node)]
  }

  /** Every statement `ast_buffer` builds is one the compaction gathers, with `node` as its one
      argument. */
  lemma AstBufferIsCompacted(node: Expr)
    ensures |AstBuffer(node)| == 1 && SingleArgPushes(AstBuffer(node))
    ensures NeedCompaction(AstBuffer(node)[0]) && PushArg(AstBuffer(node)[0]) == node
  {
  }

  // ---------------------------------------------------------------------------------------------
  // The constructor

  /** The settings of the then-pug code generator that matter here. */
  class CodeGenerator {
    var dynamicMixins: bool
    var useGenerators: bool
    var templateVars: seq<string>

    /** Whatever the options, mixins are looked up dynamically, template functions are
        generators, and the template's parameters are `locals`, `pug` and `buf`. */
    constructor()
      ensures dynamicMixins && useGenerators
      ensures templateVars == ["locals", "pug", "buf"]
    {
      dynamicMixins := true;
      useGenerators := true;
      templateVars := ["locals", "pug", "buf"];
    }
  }
}
