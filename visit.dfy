/**
 * The visitor capability (src/visit.rs). A visitor is its state `S`, the
 * two trait methods (`None` stands for the trait's default method) and the
 * `VisitorResult::output()` value of its result type `R`. The visitor's
 * `&mut self` is threaded through as `S`.
 */
module Visit {
  import opened Wrappers
  import opened Ast

  datatype Visitor<!S, R> = Visitor(
    visitExpr: Option<(S, Expr) -> (S, R)>,
    visitExprPost: Option<(S, Expr) -> (S, R)>,
    output: R)

  /** `Visitor::visit_expr`: the override, or by default `walk_expr`. */
  function VisitExpr<S, R>(v: Visitor<S, R>, s: S, e: Expr): (r: Outcome<(S, R)>)
    ensures v.visitExpr.Some? ==> r == Done(v.visitExpr.value(s, e))
    ensures v.visitExpr.None? && e.kind.Lit? ==> r == Panicked(Unimplemented)
    decreases e, 1
  {
    match v.visitExpr
    case Some(f) => Done(f(s, e))
    case None => WalkExpr(v, s, e)
  }

  /** `Visitor::visit_expr_post`: the override, or by default `output()`. */
  function VisitExprPost<S, R>(v: Visitor<S, R>, s: S, e: Expr): (r: (S, R))
    ensures v.visitExprPost.None? ==> r == (s, v.output)
  {
    match v.visitExprPost
    case Some(f) => f(s, e)
    case None => (s, v.output)
  }

  /**
   * `walk_expr`: a binary node visits its left operand, then its right
   * operand (their results are discarded), then calls `visit_expr_post` on
   * itself; a literal is `unimplemented!`.
   */
  function WalkExpr<S, R>(v: Visitor<S, R>, s: S, e: Expr): (r: Outcome<(S, R)>)
    ensures e.kind.Lit? ==> r == Panicked(Unimplemented)
    ensures r.Done? ==> e.kind.Binary?
    decreases e, 0
  {
    match e.kind
    case Lit(_) => Panicked(Unimplemented)
    case Binary(_, lhs, rhs) =>
      match VisitExpr(v, s, lhs)
      case Panicked(p) => Panicked(p)
      case Done((s1, _)) =>
        match VisitExpr(v, s1, rhs)
        case Panicked(p) => Panicked(p)
        case Done((s2, _)) => Done(VisitExprPost(v, s2, e))
  }

  /** What a logging visitor records. */
  datatype Event = Pre(expr: Expr) | Post(expr: Expr)

  /** A visitor overriding both methods to append what it is called on to a log. */
  function Recorder(): Visitor<seq<Event>, ()>
  {
    Visitor(Some((log: seq<Event>, e: Expr) => (log + [Pre(e)], ())),
            Some((log: seq<Event>, e: Expr) => (log + [Post(e)], ())),
            ())
  }

  /** Traversal order of `walk_expr` on a binary node: lhs, rhs, then the node itself. */
  lemma WalkOrder(log: seq<Event>, e: Expr)
    requires e.kind.Binary?
    ensures WalkExpr(Recorder(), log, e)
         == Done((log + [Pre(e.kind.lhs), Pre(e.kind.rhs), Post(e)], ()))
  {
    var lhs, rhs := e.kind.lhs, e.kind.rhs;
    assert VisitExpr(Recorder(), log, lhs) == Done((log + [Pre(lhs)], ()));
    assert VisitExpr(Recorder(), log + [Pre(lhs)], rhs) == Done((log + [Pre(lhs)] + [Pre(rhs)], ()));
    assert log + [Pre(lhs)] + [Pre(rhs)] + [Post(e)] == log + [Pre(lhs), Pre(rhs), Post(e)];
  }

  /** `walk_expr` on a literal aborts, whatever the visitor. */
  lemma WalkLitAborts<S, R>(v: Visitor<S, R>, s: S, e: Expr)
    requires e.kind.Lit?
    ensures WalkExpr(v, s, e) == Panicked(Unimplemented)
  {
  }

  /** The default `visit_expr_post` leaves the state alone and returns `output()`. */
  lemma DefaultPostIsOutput<S, R>(v: Visitor<S, R>, s: S, e: Expr)
    requires v.visitExprPost.None?
    ensures VisitExprPost(v, s, e) == (s, v.output)
  {
  }

  /**
   * With the default `visit_expr`, visiting any tree aborts: the walk
   * descends leftmost first, and every finite tree ends in a literal.
   */
  lemma {:induction false} DefaultVisitAborts<S, R>(v: Visitor<S, R>, s: S, e: Expr)
    requires v.visitExpr.None?
    ensures VisitExpr(v, s, e) == Panicked(Unimplemented)
  {
    match e.kind
    case Lit(_) =>
    case Binary(_, lhs, _) =>
      DefaultVisitAborts(v, s, lhs);
  }
}
