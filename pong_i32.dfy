/** The earlier pong example: positions, velocity and pad are `i32` coordinates. */
module PongI32 {
  import opened LibCommon
  import opened Events
  import opened PongRule

  /** `Coord`: a signed screen position or velocity. */
  datatype Coord = Coord(x: int, y: int)

  class App {
    var ballPos: Coord
    var ballV: Coord
    var padX: int

    /** `App::new`: every field at its default, zero. */
    constructor()
      ensures ballPos == Coord(0, 0) && ballV == Coord(0, 0) && padX == 0
    {
      ballPos := Coord(0, 0);
      ballV := Coord(0, 0);
      padX := 0;
    }

    /** `reset`: pad and ball at the centre of the screen, moving down and right. */
    method Reset(width: nat, height: nat)
      modifies this
      ensures padX == width / 2 && ballPos == Coord(width / 2, height / 2)
      ensures ballV == Coord(1, 1)
      ensures width >= 3 ==> InPlay(ballPos.x, width)
    {
      padX := width / 2;
      ballPos := Coord(width / 2, height / 2);
      ballV := Coord(1, 1);
      if width >= 3 {
        CentreInPlay(width);
      }
    }

    /** The ball half of `update`: each velocity component flips when the next position
        would reach a wall (column 0 or `width`, row 0 or `height - 1`); then the ball
        moves by the velocity. */
    method MoveBall(width: nat, height: nat)
      modifies this`ballPos, this`ballV
      ensures ballV == Coord(NextVelocity(old(ballPos.x), old(ballV.x), width),
                             NextVelocity(old(ballPos.y), old(ballV.y), height - 1))
      ensures ballPos == Coord(old(ballPos.x) + ballV.x, old(ballPos.y) + ballV.y)
      ensures IsUnit(old(ballV.x)) && IsUnit(old(ballV.y)) ==> IsUnit(ballV.x) && IsUnit(ballV.y)
      ensures width >= 3 && IsUnit(old(ballV.x)) && InPlay(old(ballPos.x), width) ==>
                InPlay(ballPos.x, width)
      ensures height >= 4 && IsUnit(old(ballV.y)) && InPlay(old(ballPos.y), height - 1) ==>
                InPlay(ballPos.y, height - 1)
    {
      var pos, v := ballPos, ballV;
      var nextX := pos.x + v.x;
      var nextY := pos.y + v.y;
      var vx, vy := v.x, v.y;
      if nextX <= 0 || nextX >= width {
        vx := -vx;
      }
      if nextY <= 0 || nextY >= height - 1 {
        vy := -vy;
      }
      if width >= 3 && IsUnit(v.x) && InPlay(pos.x, width) {
        NextPositionInPlay(pos.x, v.x, width);
      }
      if height >= 4 && IsUnit(v.y) && InPlay(pos.y, height - 1) {
        NextPositionInPlay(pos.y, v.y, height - 1);
      }
      ballV := Coord(vx, vy);
      ballPos := Coord(pos.x + vx, pos.y + vy);
    }

    /** `update`: the pad follows the last mouse column of the frame, then the ball moves. */
    method Update(events: EventGroup, width: nat, height: nat) returns (running: bool)
      modifies this
      ensures running
      ensures padX == (if LastMousePosOf(events.events).Some? then LastMousePosOf(events.events).value.0
                       else old(padX))
      ensures ballV == Coord(NextVelocity(old(ballPos.x), old(ballV.x), width),
                             NextVelocity(old(ballPos.y), old(ballV.y), height - 1))
      ensures ballPos == Coord(old(ballPos.x) + ballV.x, old(ballPos.y) + ballV.y)
      ensures IsUnit(old(ballV.x)) && IsUnit(old(ballV.y)) ==> IsUnit(ballV.x) && IsUnit(ballV.y)
      ensures width >= 3 && IsUnit(old(ballV.x)) && InPlay(old(ballPos.x), width) ==>
                InPlay(ballPos.x, width)
      ensures height >= 4 && IsUnit(old(ballV.y)) && InPlay(old(ballPos.y), height - 1) ==>
                InPlay(ballPos.y, height - 1)
    {
      var last := events.LastMousePos();
      if last.Some? {
        padX := last.value.0;
      }
      MoveBall(width, height);
      return true;
    }
  }
}
