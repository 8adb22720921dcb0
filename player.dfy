/** The Player sprite of main.py:42-91 as an object whose operations update
    its fields in place; each operation is proved to do what the matching
    function of Physics describes. */
module Sprites {
  import opened Geometry
  import opened Physics

  class Player {
    var rect: Rect
    /** velocity_y, in half-units. */
    var velocity: int
    var jumping: bool
    var onGround: bool

    /** The fields as a value. */
    function State(): PlayerState
      reads this
    {
      PlayerState(rect, velocity, jumping, onGround)
    }

    ghost predicate Valid()
      reads this
    {
      Consistent(State())
    }

    /** Player.__init__ (main.py:43-53). */
    constructor ()
      ensures State() == Spawn && Valid()
    {
      rect := Rect(100, 300, PlayerWidth, PlayerHeight);
      velocity := 0;
      jumping := false;
      onGround := false;
    }

    /** Player.update (main.py:55-75): gravity, the move, then the platform
        scan in order; `toPixel` is how the Rect stores a fractional y. */
    method Update(platforms: seq<Rect>, toPixel: int -> int)
      modifies this
      ensures State() == Physics.Update(old(State()), platforms, toPixel)
      ensures old(Valid()) ==> Valid()
    {
      ghost var start := State();
      velocity := velocity + Gravity;
      if velocity > MaxFallSpeed {
        velocity := MaxFallSpeed;
      }
      rect := rect.(y := toPixel(2 * rect.y + velocity));
      onGround := false;
      assert State() == Fall(start, toPixel);
      for i := 0 to |platforms|
        invariant Resolve(State(), platforms[i..]) == Physics.Update(start, platforms, toPixel)
      {
        assert platforms[i..][1..] == platforms[i + 1..];
        var platform := platforms[i];
        if Collides(rect, platform) {
          if velocity > 0 {
            rect := rect.WithBottom(platform.Top());
            velocity := 0;
            onGround := true;
            jumping := false;
          } else if velocity < 0 {
            rect := rect.WithTop(platform.Bottom());
            velocity := 0;
          }
        }
      }
      if old(Valid()) {
        UpdateConsistent(start, platforms, toPixel);
      }
    }

    /** Player.jump (main.py:77-81). */
    method Jump()
      modifies this
      ensures State() == Jumped(old(State()))
      ensures old(Valid()) ==> Valid()
    {
      if onGround && !jumping {
        jumping := true;
        velocity := JumpVelocity;
        onGround := false;
      }
    }

    /** Player.move_left (main.py:83-86). */
    method MoveLeft()
      modifies this
      ensures State() == MovedLeft(old(State()))
      ensures old(Valid()) ==> Valid()
    {
      rect := rect.(x := rect.x - MoveStep);
      if rect.Left() < 0 {
        rect := rect.WithLeft(0);
      }
    }

    /** Player.move_right (main.py:88-91). */
    method MoveRight()
      modifies this
      ensures State() == MovedRight(old(State()))
      ensures old(Valid()) ==> Valid()
    {
      rect := rect.(x := rect.x + MoveStep);
      if rect.Right() > ScreenWidth {
        rect := rect.WithRight(ScreenWidth);
      }
    }
  }
}
