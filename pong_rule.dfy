/** The ball rule shared by both pong examples: a velocity component flips when the next
    position would reach a wall, and the ball then moves by the (possibly flipped) velocity. */
module PongRule {

  /** A next coordinate at or beyond a wall: at most 0, or at least `limit`. */
  predicate HitsWall(next: int, limit: int) {
    next <= 0 || next >= limit
  }

  /** The velocity component after one step from `pos`. */
  function NextVelocity(pos: int, v: int, limit: int): (w: int)
    ensures HitsWall(pos + v, limit) ==> w == -v
    ensures !HitsWall(pos + v, limit) ==> w == v
  {
    if HitsWall(pos + v, limit) then -v else v
  }

  /** The coordinate after one step from `pos`, before any narrowing to the stored type. */
  function NextPosition(pos: int, v: int, limit: int): int {
    pos + NextVelocity(pos, v, limit)
  }

  /** A unit velocity: `reset` sets each component to 1 and `update` only negates it. */
  predicate IsUnit(v: int) {
    v == 1 || v == -1
  }

  /** A step keeps a unit velocity a unit velocity. */
  lemma NextVelocityIsUnit(pos: int, v: int, limit: int)
    requires IsUnit(v)
    ensures IsUnit(NextVelocity(pos, v, limit))
  {
  }

  /** Strictly between the walls. */
  predicate InPlay(pos: int, limit: int) {
    1 <= pos <= limit - 1
  }

  /** With a unit velocity and at least three cells across, a ball strictly between the
      walls stays strictly between them: it bounces off before reaching a wall. */
  lemma NextPositionInPlay(pos: int, v: int, limit: int)
    requires limit >= 3 && IsUnit(v) && InPlay(pos, limit)
    ensures InPlay(NextPosition(pos, v, limit), limit)
  {
    var next := pos + v;
    if HitsWall(next, limit) {
      if next <= 0 {
        assert pos == 1 && v == -1;
      } else {
        assert pos == limit - 1 && v == 1;
      }
    }
  }

  /** The ball moves by exactly one cell along each axis on every step. */
  lemma NextPositionMovesOneCell(pos: int, v: int, limit: int)
    requires IsUnit(v)
    ensures NextPosition(pos, v, limit) - pos in {-1, 1}
  {
  }

  /** The centre where `reset` puts the ball is strictly between the walls when there are
      at least two cells across. */
  lemma CentreInPlay(size: nat)
    requires size >= 2
    ensures InPlay(size / 2, size)
  {
  }
}
