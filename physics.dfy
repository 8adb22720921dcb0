/** The player's physics as functions on values: what one call of each of
    Player's operations (main.py:55-91) does to the player's state. Velocities
    are counted in half-units (0.5 pixel per tick), the only granularity the
    source ever produces, so that no floating point is needed. */
module Physics {
  import opened Geometry

  /** Gravity added every tick: 0.5, i.e. one half-unit. */
  const Gravity: int := 1
  /** Fastest fall: 10 pixels per tick. */
  const MaxFallSpeed: int := 20
  /** Velocity a jump starts with: -12 pixels per tick. */
  const JumpVelocity: int := -24
  /** Horizontal displacement of one movement key press, in pixels. */
  const MoveStep: int := 5
  const PlayerWidth: int := 30
  const PlayerHeight: int := 50

  /** The fields of a Player: rect, velocity_y (in half-units), jumping, on_ground. */
  datatype PlayerState = PlayerState(rect: Rect, velocity: int, jumping: bool, onGround: bool)

  /** Player.__init__: a 30x50 rectangle at (100, 300), at rest, neither jumping nor grounded. */
  const Spawn: PlayerState :=
    PlayerState(Rect(100, 300, PlayerWidth, PlayerHeight), 0, false, false)

  /** What pygame does when a fractional value is stored in a Rect coordinate
      is library code: the model takes it as a parameter `toPixel`, mapping a
      position given in half-units to the integer the Rect stores. The one
      thing assumed of it is that it lands on the nearest integer below or
      above, which truncation and rounding both do; whole values stay exact. */
  ghost predicate IsPixelConversion(toPixel: int -> int) {
    forall t: int {:trigger toPixel(t)} :: -1 <= 2 * toPixel(t) - t <= 1
  }

  /** The states the game can reach: size fixed, inside the window horizontally,
      velocity between a jump's and the fall cap, and the two flags consistent
      (grounded means at rest and not jumping; jumping means airborne). */
  predicate Consistent(s: PlayerState) {
    s.rect.w == PlayerWidth && s.rect.h == PlayerHeight &&
    WithinScreenWidth(s.rect) &&
    JumpVelocity <= s.velocity <= MaxFallSpeed &&
    (s.onGround ==> s.velocity == 0 && !s.jumping) &&
    (s.jumping ==> !s.onGround)
  }

  // ---------------------------------------------------------------- update

  /** Velocity after gravity, capped at the maximum fall speed (main.py:57-59). */
  function Accelerated(v: int): (r: int)
    ensures r <= MaxFallSpeed
    ensures r == v + Gravity || (r == MaxFallSpeed && v + Gravity > MaxFallSpeed)
  {
    if v + Gravity > MaxFallSpeed then MaxFallSpeed else v + Gravity
  }

  /** The first part of update (main.py:56-65): gravity, the move by the new
      velocity, and on_ground cleared before the platforms are scanned. */
  function Fall(s: PlayerState, toPixel: int -> int): (r: PlayerState)
    ensures r.velocity <= MaxFallSpeed && !r.onGround && r.jumping == s.jumping
    ensures r.rect.x == s.rect.x && r.rect.w == s.rect.w && r.rect.h == s.rect.h
  {
    var v := Accelerated(s.velocity);
    s.(rect := s.rect.(y := toPixel(2 * s.rect.y + v)), velocity := v, onGround := false)
  }

  /** One iteration of the platform scan (main.py:67-75). */
  function Collide(s: PlayerState, p: Rect): (r: PlayerState)
    ensures r.rect.x == s.rect.x && r.rect.w == s.rect.w && r.rect.h == s.rect.h
    ensures r != s ==> Collides(s.rect, p) && s.velocity != 0 && r.velocity == 0 && !Collides(r.rect, p)
    ensures r.onGround ==> s.onGround || (s.velocity > 0 && r.velocity == 0 && !r.jumping)
  {
    if !Collides(s.rect, p) then s
    else if s.velocity > 0 then
      s.(rect := s.rect.WithBottom(p.Top()), velocity := 0, onGround := true, jumping := false)
    else if s.velocity < 0 then
      s.(rect := s.rect.WithTop(p.Bottom()), velocity := 0)
    else s
  }

  /** The whole platform scan, in the order of the platform collection (main.py:66-75). */
  function Resolve(s: PlayerState, platforms: seq<Rect>): (r: PlayerState)
    ensures r.rect.x == s.rect.x && r.rect.w == s.rect.w && r.rect.h == s.rect.h
    ensures r.velocity == s.velocity || r.velocity == 0
    ensures (s.onGround ==> s.velocity == 0 && !s.jumping) ==> (r.onGround ==> r.velocity == 0 && !r.jumping)
    decreases |platforms|
  {
    if platforms == [] then s else Resolve(Collide(s, platforms[0]), platforms[1..])
  }

  /** Player.update (main.py:55-75). */
  function Update(s: PlayerState, platforms: seq<Rect>, toPixel: int -> int): (r: PlayerState)
    ensures r.rect.x == s.rect.x && r.rect.w == s.rect.w && r.rect.h == s.rect.h
    ensures r.velocity <= MaxFallSpeed
    ensures r.onGround ==> r.velocity == 0 && !r.jumping
  {
    Resolve(Fall(s, toPixel), platforms)
  }

  /** Index of the first platform that r overlaps, or |platforms| when none does. */
  function FirstCollision(r: Rect, platforms: seq<Rect>): (k: nat)
    ensures k <= |platforms|
    ensures k < |platforms| ==> Collides(r, platforms[k])
    ensures forall i :: 0 <= i < k ==> !Collides(r, platforms[i])
    decreases |platforms|
  {
    if platforms == [] then 0
    else if Collides(r, platforms[0]) then 0
    else 1 + FirstCollision(r, platforms[1..])
  }

  /** Once the velocity is 0, the scan changes nothing more. */
  lemma {:induction false} ResolveAtRest(s: PlayerState, platforms: seq<Rect>)
    requires s.velocity == 0
    ensures Resolve(s, platforms) == s
    decreases |platforms|
  {
    if platforms != [] {
      ResolveAtRest(s, platforms[1..]);
    }
  }

  /** The scan amounts to resolving against the first overlapping platform
      alone: every later platform is met with velocity 0 (or not overlapped). */
  lemma {:induction false} ResolveFirst(s: PlayerState, platforms: seq<Rect>)
    ensures var k := FirstCollision(s.rect, platforms);
      Resolve(s, platforms) == if k == |platforms| then s else Collide(s, platforms[k])
    decreases |platforms|
  {
    if platforms != [] {
      var t := Collide(s, platforms[0]);
      if Collides(s.rect, platforms[0]) {
        if s.velocity == 0 {
          ResolveAtRest(s, platforms[1..]);
        } else {
          ResolveAtRest(t, platforms[1..]);
        }
      } else {
        ResolveFirst(s, platforms[1..]);
      }
    }
  }

  /** After update the velocity never exceeds the fall cap: gravity is capped
      before collisions are looked at, and a collision only ever sets it to 0. */
  lemma {:induction false} UpdateVelocityCapped(s: PlayerState, platforms: seq<Rect>, toPixel: int -> int)
    ensures var r := Update(s, platforms, toPixel);
      r.velocity <= MaxFallSpeed &&
      (r.velocity == 0 || r.velocity == Accelerated(s.velocity))
  {
    ResolveFirst(Fall(s, toPixel), platforms);
  }

  /** Without an overlap to resolve (or with velocity 0 after gravity), update is
      pure gravity: the velocity grows by 0.5 up to the cap and the rectangle
      moves by it; jumping is kept and on_ground is false. */
  lemma {:induction false} UpdateFreeFall(s: PlayerState, platforms: seq<Rect>, toPixel: int -> int)
    requires var f := Fall(s, toPixel);
      f.velocity == 0 || FirstCollision(f.rect, platforms) == |platforms|
    ensures var r := Update(s, platforms, toPixel);
      r.velocity == (if s.velocity < MaxFallSpeed then s.velocity + Gravity else MaxFallSpeed) &&
      r.rect == s.rect.(y := toPixel(2 * s.rect.y + r.velocity)) &&
      r.jumping == s.jumping && !r.onGround
  {
    var f := Fall(s, toPixel);
    ResolveFirst(f, platforms);
  }

  /** Landing: when the player is falling after gravity and overlaps a platform,
      the first such platform stops it. Its bottom edge is put on that platform's
      top edge, so it no longer overlaps it (a shared edge is no overlap, see
      Geometry.StackedDoNotCollide); it is at rest, grounded and no longer
      jumping, and has not moved sideways. */
  lemma {:induction false} UpdateLands(s: PlayerState, platforms: seq<Rect>, toPixel: int -> int)
    requires var f := Fall(s, toPixel);
      f.velocity > 0 && FirstCollision(f.rect, platforms) < |platforms|
    ensures var k := FirstCollision(Fall(s, toPixel).rect, platforms);
      var r := Update(s, platforms, toPixel);
      r.rect.Bottom() == platforms[k].Top() && !Collides(r.rect, platforms[k]) &&
      r.rect.x == s.rect.x && r.rect.w == s.rect.w && r.rect.h == s.rect.h &&
      r.velocity == 0 && r.onGround && !r.jumping
  {
    var f := Fall(s, toPixel);
    ResolveFirst(f, platforms);
  }

  /** Head bump: when the player is rising after gravity and overlaps a platform,
      the first such platform stops it. Its top edge is put on that platform's
      bottom edge and the velocity is 0; it stays ungrounded and keeps its jumping flag. */
  lemma {:induction false} UpdateBumpsHead(s: PlayerState, platforms: seq<Rect>, toPixel: int -> int)
    requires var f := Fall(s, toPixel);
      f.velocity < 0 && FirstCollision(f.rect, platforms) < |platforms|
    ensures var k := FirstCollision(Fall(s, toPixel).rect, platforms);
      var r := Update(s, platforms, toPixel);
      r.rect.Top() == platforms[k].Bottom() && !Collides(r.rect, platforms[k]) &&
      r.rect.x == s.rect.x && r.rect.w == s.rect.w && r.rect.h == s.rect.h &&
      r.velocity == 0 && !r.onGround && r.jumping == s.jumping
  {
    var f := Fall(s, toPixel);
    ResolveFirst(f, platforms);
  }

  /** on_ground is recomputed by every update: it holds afterwards exactly when
      the player was falling and met a platform in this call, and then the
      player is at rest and not jumping. */
  lemma {:induction false} UpdateGroundedIff(s: PlayerState, platforms: seq<Rect>, toPixel: int -> int)
    ensures var f := Fall(s, toPixel);
      var r := Update(s, platforms, toPixel);
      (r.onGround <==> f.velocity > 0 && FirstCollision(f.rect, platforms) < |platforms|) &&
      (r.onGround ==> r.velocity == 0 && !r.jumping)
  {
    var f := Fall(s, toPixel);
    ResolveFirst(f, platforms);
  }

  /** update keeps the player's state consistent. */
  lemma {:induction false} UpdateConsistent(s: PlayerState, platforms: seq<Rect>, toPixel: int -> int)
    requires Consistent(s)
    ensures Consistent(Update(s, platforms, toPixel))
  {
    ResolveFirst(Fall(s, toPixel), platforms);
  }

  // ------------------------------------------------------------------ jump

  /** Player.jump (main.py:77-81). */
  function Jumped(s: PlayerState): (r: PlayerState)
    ensures r.rect == s.rect
    ensures r != s ==> s.onGround && !s.jumping && r.jumping && !r.onGround && r.velocity == JumpVelocity
  {
    if s.onGround && !s.jumping then
      s.(jumping := true, velocity := JumpVelocity, onGround := false)
    else s
  }

  /** jump takes effect exactly when grounded and not already jumping, and then
      starts the jump; in any other state it leaves everything as it was. */
  lemma JumpGuard(s: PlayerState)
    ensures var r := Jumped(s);
      (s.onGround && !s.jumping ==>
        r.jumping && r.velocity == JumpVelocity && !r.onGround && r.rect == s.rect) &&
      (!(s.onGround && !s.jumping) ==> r == s)
  {
  }

  /** A second jump right after the first does nothing: the first left the ground. */
  lemma JumpIdempotent(s: PlayerState)
    ensures Jumped(Jumped(s)) == Jumped(s)
  {
  }

  /** jump keeps the player's state consistent. */
  lemma JumpConsistent(s: PlayerState)
    requires Consistent(s)
    ensures Consistent(Jumped(s))
  {
  }

  /** A jump from the ground followed by an update with nothing overhead moves
      the player up by at least 11 pixels, at velocity -11.5 per tick. */
  lemma {:induction false} JumpThenUpdateRises(s: PlayerState, platforms: seq<Rect>, toPixel: int -> int)
    requires IsPixelConversion(toPixel)
    requires s.onGround && !s.jumping
    requires FirstCollision(Fall(Jumped(s), toPixel).rect, platforms) == |platforms|
    ensures var r := Update(Jumped(s), platforms, toPixel);
      r.velocity == JumpVelocity + Gravity && r.rect.y <= s.rect.y - 11 && r.jumping && !r.onGround
  {
    var j := Jumped(s);
    UpdateFreeFall(j, platforms, toPixel);
    var t := 2 * j.rect.y + Accelerated(j.velocity);
    assert -1 <= 2 * toPixel(t) - t <= 1;
  }

  // ------------------------------------------------------------- movement

  /** Player.move_left (main.py:83-86). */
  function MovedLeft(s: PlayerState): (r: PlayerState)
    ensures 0 <= r.rect.Left() && s.rect.Left() - MoveStep <= r.rect.Left()
    ensures r == s.(rect := s.rect.(x := r.rect.x))
  {
    var r := s.rect.(x := s.rect.x - MoveStep);
    s.(rect := if r.Left() < 0 then r.WithLeft(0) else r)
  }

  /** Player.move_right (main.py:88-91). */
  function MovedRight(s: PlayerState): (r: PlayerState)
    ensures r.rect.Right() <= ScreenWidth && r.rect.Right() <= s.rect.Right() + MoveStep
    ensures r == s.(rect := s.rect.(x := r.rect.x))
  {
    var r := s.rect.(x := s.rect.x + MoveStep);
    s.(rect := if r.Right() > ScreenWidth then r.WithRight(ScreenWidth) else r)
  }

  /** move_left steps 5 pixels left but not past the left edge; it changes nothing else. */
  lemma MoveLeftClamps(s: PlayerState)
    ensures var r := MovedLeft(s);
      r.rect.x == (if s.rect.x - MoveStep < 0 then 0 else s.rect.x - MoveStep) &&
      r == s.(rect := s.rect.(x := r.rect.x))
  {
  }

  /** move_right steps 5 pixels right but not past the right edge; it changes nothing else. */
  lemma MoveRightClamps(s: PlayerState)
    ensures var r := MovedRight(s);
      r.rect.Right() == (if s.rect.Right() + MoveStep > ScreenWidth then ScreenWidth else s.rect.Right() + MoveStep) &&
      r == s.(rect := s.rect.(x := r.rect.x))
  {
  }

  /** Both movements keep a player that fits the window inside it horizontally. */
  lemma MovesStayOnScreen(s: PlayerState)
    requires WithinScreenWidth(s.rect) && 0 <= s.rect.w
    ensures WithinScreenWidth(MovedLeft(s).rect) && WithinScreenWidth(MovedRight(s).rect)
  {
  }

  /** n presses of the left key, one after another. */
  function LeftPresses(s: PlayerState, n: nat): PlayerState {
    if n == 0 then s else MovedLeft(LeftPresses(s, n - 1))
  }

  /** n presses of the right key, one after another. */
  function RightPresses(s: PlayerState, n: nat): PlayerState {
    if n == 0 then s else MovedRight(RightPresses(s, n - 1))
  }

  /** Holding left drives x down by 5 per press to exactly 0 and no further. */
  lemma {:induction false} LeftPressesReachWall(s: PlayerState, n: nat)
    requires 0 <= s.rect.x
    ensures var r := LeftPresses(s, n);
      r.rect.x == (if s.rect.x - n * MoveStep < 0 then 0 else s.rect.x - n * MoveStep) &&
      r == s.(rect := s.rect.(x := r.rect.x))
  {
    if n > 0 {
      LeftPressesReachWall(s, n - 1);
    }
  }

  /** Holding right drives the right edge up by 5 per press to exactly the
      window's width and no further. */
  lemma {:induction false} RightPressesReachWall(s: PlayerState, n: nat)
    requires s.rect.Right() <= ScreenWidth
    ensures var r := RightPresses(s, n);
      r.rect.Right() == (if s.rect.Right() + n * MoveStep > ScreenWidth then ScreenWidth else s.rect.Right() + n * MoveStep) &&
      r == s.(rect := s.rect.(x := r.rect.x))
  {
    if n > 0 {
      RightPressesReachWall(s, n - 1);
    }
  }

  /** Both movements keep the player's state consistent. */
  lemma MovesConsistent(s: PlayerState)
    requires Consistent(s)
    ensures Consistent(MovedLeft(s)) && Consistent(MovedRight(s))
  {
  }
}
