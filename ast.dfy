/** The syntax tree (src/ast.rs). */
module Ast {
  import opened Wrappers
  import opened Values
  import Tokens

  datatype LitKind = Number

  /** `Lit`: a literal's kind and its value. */
  datatype Lit = Literal(kind: LitKind, symbol: F64)

  /** `Lit::from(f64)`. */
  function LitFrom(value: F64): (l: Lit)
    ensures l.kind == LitKind.Number && l.symbol == value
  {
    Literal(LitKind.Number, value)
  }

  /** Each binary node owns its two subtrees, so every tree is finite. */
  datatype Expr = Expr(kind: ExprKind)

  datatype ExprKind =
    | Binary(op: BinOpKind, lhs: Expr, rhs: Expr)
    | Lit(lit: Lit)

  datatype BinOpKind = Add | Sub

  datatype Ast = Ast(root: Expr)

  /** `Precedence`, ordered by declaration (`derive(PartialOrd)`). */
  datatype Precedence = None | Summation | Multiplication | Division

  function Rank(p: Precedence): nat
  {
    match p
    case None => 0
    case Summation => 1
    case Multiplication => 2
    case Division => 3
  }

  /** `p < q` under the derived ordering. */
  predicate Below(p: Precedence, q: Precedence)
  {
    Rank(p) < Rank(q)
  }

  /** The ordering is a strict total order. */
  lemma PrecedenceStrictTotalOrder(p: Precedence, q: Precedence, r: Precedence)
    ensures !Below(p, p)
    ensures Below(p, q) && Below(q, r) ==> Below(p, r)
    ensures p == q || Below(p, q) || Below(q, p)
  {
  }

  /** The four levels from lowest to highest. */
  lemma PrecedenceChain()
    ensures Below(Precedence.None, Summation) && Below(Summation, Multiplication)
    ensures Below(Multiplication, Division)
  {
  }

  /** `Precedence::from_token`: any token without a level is `unimplemented!`. */
  function FromToken(t: Tokens.Token): (r: Outcome<Precedence>)
    ensures r.Done? <==> t.EOF? || t.Plus? || t.Minus? || t.Star? || t.Slash?
    ensures r.Panicked? ==> r.panic == Unimplemented
    ensures t.Plus? || t.Minus? ==> r == Done(Summation)
    ensures t.EOF? ==> r == Done(Precedence.None)
    ensures t.Star? ==> r == Done(Multiplication)
    ensures t.Slash? ==> r == Done(Division)
  {
    match t
    case EOF => Done(Precedence.None)
    case Plus | Minus => Done(Summation)
    case Star => Done(Multiplication)
    case Slash => Done(Division)
    case _ => Panicked(Unimplemented)
  }

  /** Number of literal leaves. */
  function LeafCount(e: Expr): (n: nat)
    ensures n >= 1
  {
    match e.kind
    case Lit(_) => 1
    case Binary(_, lhs, rhs) => LeafCount(lhs) + LeafCount(rhs)
  }

  /** Number of binary nodes. */
  function BinaryCount(e: Expr): nat
  {
    match e.kind
    case Lit(_) => 0
    case Binary(_, lhs, rhs) => 1 + BinaryCount(lhs) + BinaryCount(rhs)
  }

  /** The literal values of the leaves, left to right. */
  function Leaves(e: Expr): (s: seq<F64>)
    ensures |s| == LeafCount(e)
  {
    match e.kind
    case Lit(lit) => [lit.symbol]
    case Binary(_, lhs, rhs) => Leaves(lhs) + Leaves(rhs)
  }

  /** A full binary tree has one more leaf than it has inner nodes. */
  lemma {:induction false} LeavesOutnumberNodes(e: Expr)
    ensures LeafCount(e) == BinaryCount(e) + 1
  {
    match e.kind
    case Lit(_) =>
    case Binary(_, lhs, rhs) =>
      LeavesOutnumberNodes(lhs);
      LeavesOutnumberNodes(rhs);
  }

  /**
   * The value a tree denotes, with the operations left uninterpreted:
   * `lhs OP rhs`, the left operand first.
   */
  function Eval(e: Expr): F64
  {
    match e.kind
    case Lit(lit) => lit.symbol
    case Binary(Add, lhs, rhs) => Sum(Eval(lhs), Eval(rhs))
    case Binary(Sub, lhs, rhs) => Difference(Eval(lhs), Eval(rhs))
  }

  /** The only shape the parser builds: `Number + Number`. */
  predicate IsLiteralSum(e: Expr)
  {
    e.kind.Binary? && e.kind.op == Add && e.kind.lhs.kind.Lit? && e.kind.rhs.kind.Lit?
    && e.kind.lhs.kind.lit.kind == LitKind.Number && e.kind.rhs.kind.lit.kind == LitKind.Number
  }
}
