/**
 * The part of the Babel syntax tree that the then-pug code generator builds and rewrites:
 * expressions, statements, and statement lists, which only occur as the body of a block.
 */
module PugAst {

  datatype Option<T> = None | Some(value: T)

  datatype Expr =
    | Str(value: string)
    | Ident(name: string)
    | This
    | Member(obj: Expr, property: Expr)
    | Call(callee: Expr, arguments: seq<Expr>)
    | Binary(operator: string, left: Expr, right: Expr)
    | Logical(operator: string, left: Expr, right: Expr)
    | Unary(operator: string, argument: Expr)
    | Conditional(test: Expr, consequent: Expr, alternate: Expr)
    | Object(properties: seq<Property>)
    | Function(params: seq<string>, body: Block, generator: bool)
    | Yield(argument: Expr, delegate: bool)

  datatype Property = Property(key: string, value: Expr)

  datatype Declarator = Declarator(id: string, init: Option<Expr>)

  /** `Compound` stands for every statement that holds blocks (`if`, loops, `try`): its kind, the
      expressions it tests and its blocks, in source order. */
  datatype Stmt =
    | ExprStmt(expression: Expr)
    | VarDecl(kind: string, declarations: seq<Declarator>)
    | Return(argument: Expr)
    | FunctionDecl(name: string, params: seq<string>, body: Block, generator: bool)
    | Compound(kind: string, tests: seq<Expr>, bodies: seq<Block>)

  datatype Block = Block(body: seq<Stmt>)

  /** `buf.push` */
  const BufPush := Member(Ident("buf"), Ident("push"))

  /** `buf.push(e);` */
  function PushStmt(e: Expr): Stmt {
    ExprStmt(Call(BufPush, [e]))
  }

  /** `needCompaction`: an expression statement calling `buf.push`, whatever its arguments. */
  predicate NeedCompaction(s: Stmt) {
    && s.ExprStmt?
    && s.expression.Call?
    && s.expression.callee.Member?
    && s.expression.callee.obj.Ident?
    && s.expression.callee.obj.name == "buf"
    && s.expression.callee.property.Ident?
    && s.expression.callee.property.name == "push"
  }

  /** A statement is a call of `buf.push` exactly when it is one with its argument list. */
  lemma NeedCompactionIsPush(s: Stmt)
    ensures NeedCompaction(s) <==> s.ExprStmt? && s.expression.Call? && s.expression.callee == BufPush
    ensures forall e :: NeedCompaction(PushStmt(e)) && PushStmt(e).expression.arguments == [e]
  {
  }

  /** `child.expression.arguments[0]`; a push without arguments, which the generator never builds,
      is read as pushing `undefined`. */
  function PushArg(s: Stmt): Expr
    requires NeedCompaction(s)
  {
    var args := s.expression.arguments;
    if |args| > 0 then args[0] else Ident("undefined")
  }

  /** The pushes of a list call `buf.push` with exactly one argument. */
  predicate SingleArgPushes(l: seq<Stmt>) {
    forall i :: 0 <= i < |l| && NeedCompaction(l[i]) ==> |l[i].expression.arguments| == 1
  }
}
