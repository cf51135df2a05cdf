/** The pong example of the engine library: the ball position and the pad are `u16`
    screen cells, the velocity is `i32`. */
module PongU16 {
  import opened LibCommon
  import opened Events
  import opened PongRule

  /** `as u16` on an `i32`: keeps the low 16 bits, so -1 becomes 65535. */
  function WrapU16(n: int): (r: U16)
    ensures 0 <= n < 0x1_0000 ==> r == n
    ensures (r - n) % 0x1_0000 == 0
  {
    n % 0x1_0000
  }

  class App {
    var ballPos: (U16, U16)
    var ballV: (int, int)
    var padX: U16

    /** `App::new`: every field at its default, zero. */
    constructor()
      ensures ballPos == (0, 0) && ballV == (0, 0) && padX == 0
    {
      ballPos := (0, 0);
      ballV := (0, 0);
      padX := 0;
    }

    /** `reset`: pad and ball at the centre of the screen, moving down and right. */
    method Reset(width: U16, height: U16)
      modifies this
      ensures padX == width / 2 && ballPos == (width / 2, height / 2)
      ensures ballV == (1, 1)
      ensures width >= 3 ==> InPlay(ballPos.0, width)
    {
      padX := width / 2;
      ballPos := (width / 2, height / 2);
      ballV := (1, 1);
      if width >= 3 {
        CentreInPlay(width);
      }
    }

    /** The ball half of `update`: each velocity component flips when the next position
        would reach a wall (column 0 or `width`, row 0 or `height - 1`); then the ball
        moves by the velocity, narrowed back to `u16`. */
    method MoveBall(width: U16, height: U16)
      modifies this`ballPos, this`ballV
      ensures ballV.0 == NextVelocity(old(ballPos.0), old(ballV.0), width)
      ensures ballV.1 == NextVelocity(old(ballPos.1), old(ballV.1), height - 1)
      ensures ballPos == (WrapU16(old(ballPos.0) + ballV.0), WrapU16(old(ballPos.1) + ballV.1))
      ensures IsUnit(old(ballV.0)) ==> IsUnit(ballV.0)
      ensures IsUnit(old(ballV.1)) ==> IsUnit(ballV.1)
      ensures width >= 3 && IsUnit(old(ballV.0)) && InPlay(old(ballPos.0), width) ==>
                InPlay(ballPos.0, width)
      ensures height >= 4 && IsUnit(old(ballV.1)) && InPlay(old(ballPos.1), height - 1) ==>
                InPlay(ballPos.1, height - 1)
    {
      var pos, v := ballPos, ballV;
      var nextX := pos.0 + v.0;
      var nextY := pos.1 + v.1;
      var vx, vy := v.0, v.1;
      if nextX <= 0 || nextX >= width {
        vx := -vx;
      }
      if nextY <= 0 || nextY >= height - 1 {
        vy := -vy;
      }
      if width >= 3 && IsUnit(v.0) && InPlay(pos.0, width) {
        NextPositionInPlay(pos.0, v.0, width);
      }
      if height >= 4 && IsUnit(v.1) && InPlay(pos.1, height - 1) {
        NextPositionInPlay(pos.1, v.1, height - 1);
      }
      ballV := (vx, vy);
      ballPos := (WrapU16(pos.0 + vx), WrapU16(pos.1 + vy));
    }

    /** `update`: the pad follows the last mouse column of the frame, then the ball moves. */
    method Update(events: EventGroup, width: U16, height: U16) returns (running: bool)
      modifies this
      ensures running
      ensures padX == (if LastMousePosOf(events.events).Some? then LastMousePosOf(events.events).value.0
                       else old(padX))
      ensures ballV.0 == NextVelocity(old(ballPos.0), old(ballV.0), width)
      ensures ballV.1 == NextVelocity(old(ballPos.1), old(ballV.1), height - 1)
      ensures ballPos == (WrapU16(old(ballPos.0) + ballV.0), WrapU16(old(ballPos.1) + ballV.1))
      ensures IsUnit(old(ballV.0)) ==> IsUnit(ballV.0)
      ensures IsUnit(old(ballV.1)) ==> IsUnit(ballV.1)
      ensures width >= 3 && IsUnit(old(ballV.0)) && InPlay(old(ballPos.0), width) ==>
                InPlay(ballPos.0, width)
      ensures height >= 4 && IsUnit(old(ballV.1)) && InPlay(old(ballPos.1), height - 1) ==>
                InPlay(ballPos.1, height - 1)
    {
      var last := events.LastMousePos();
      if last.Some? {
        padX := last.value.0;
      }
      MoveBall(width, height);
      return true;
    }
  }
}
