/** The game loop of Game.run (main.py:136-168) without rendering and without
    the frame clock: each tick handles the pending events, then the held
    arrow keys, then updates the player against the platforms. What pygame
    reports in a tick is given as an Input value. */
module GameLoop {
  import opened Geometry
  import opened Physics
  import opened Level
  import opened Sprites

  datatype Key = Space | LeftArrow | RightArrow | OtherKey
  /** The events the loop tells apart: the window being closed, a key going down, anything else. */
  datatype Event = Quit | KeyDown(key: Key) | OtherEvent
  /** One tick's input: the pending events in order, and whether Left and Right are held. */
  datatype Input = Input(events: seq<Event>, leftHeld: bool, rightHeld: bool)

  /** The event loop's effect on the player (main.py:143-148): a jump per Space key-down. */
  function HandleEvents(s: PlayerState, events: seq<Event>): (r: PlayerState)
    ensures r.rect == s.rect
    ensures r != s ==> KeyDown(Space) in events && s.onGround && !s.jumping
    decreases |events|
  {
    if events == [] then s
    else HandleEvents(if events[0] == KeyDown(Space) then Jumped(s) else s, events[1..])
  }

  /** Several Space presses in one tick jump at most once: the events act as a
      single jump when there is a Space key-down among them, and not at all otherwise. */
  lemma {:induction false} HandleEventsJumpOnce(s: PlayerState, events: seq<Event>)
    ensures HandleEvents(s, events) == if KeyDown(Space) in events then Jumped(s) else s
    decreases |events|
  {
    if events != [] {
      var t := if events[0] == KeyDown(Space) then Jumped(s) else s;
      HandleEventsJumpOnce(t, events[1..]);
      JumpIdempotent(s);
      assert events == [events[0]] + events[1..];
    }
  }

  /** One pass of the `while running` loop on the player (main.py:142-158). */
  function Ticked(s: PlayerState, input: Input, platforms: seq<Rect>, toPixel: int -> int): (r: PlayerState)
    ensures r.rect.w == s.rect.w && r.rect.h == s.rect.h
    ensures !input.leftHeld && !input.rightHeld ==> r.rect.x == s.rect.x
    ensures r.velocity <= MaxFallSpeed && (r.onGround ==> r.velocity == 0 && !r.jumping)
  {
    var afterEvents := HandleEvents(s, input.events);
    var afterLeft := if input.leftHeld then MovedLeft(afterEvents) else afterEvents;
    var afterRight := if input.rightHeld then MovedRight(afterLeft) else afterLeft;
    Update(afterRight, platforms, toPixel)
  }

  /** A tick keeps the player's state consistent; in particular the player
      stays inside the window horizontally and under the fall cap. */
  lemma {:induction false} TickConsistent(s: PlayerState, input: Input, platforms: seq<Rect>, toPixel: int -> int)
    requires Consistent(s)
    ensures Consistent(Ticked(s, input, platforms, toPixel))
  {
    HandleEventsJumpOnce(s, input.events);
    var afterEvents := HandleEvents(s, input.events);
    JumpConsistent(s);
    MovesConsistent(afterEvents);
    var afterLeft := if input.leftHeld then MovedLeft(afterEvents) else afterEvents;
    MovesConsistent(afterLeft);
    var afterRight := if input.rightHeld then MovedRight(afterLeft) else afterLeft;
    UpdateConsistent(afterRight, platforms, toPixel);
  }

  /** The first tick after start-up, with no keys: the player falls by half a
      pixel (stored as 300 or 301), at velocity 0.5, touching no platform. */
  lemma {:induction false} FirstTickFalls(toPixel: int -> int)
    requires IsPixelConversion(toPixel)
    ensures var r := Ticked(Spawn, Input([], false, false), Platforms, toPixel);
      r.velocity == Gravity && 300 <= r.rect.y <= 301 && r.rect.x == 100 &&
      !r.onGround && !r.jumping
  {
    var f := Fall(Spawn, toPixel);
    assert -1 <= 2 * toPixel(601) - 601 <= 1;
    assert FirstCollision(f.rect, Platforms) == |Platforms|;
    UpdateFreeFall(Spawn, Platforms, toPixel);
  }

  /** The ticks of a script played one after another. */
  function Played(s: PlayerState, script: seq<Input>, platforms: seq<Rect>, toPixel: int -> int): (r: PlayerState)
    ensures r.rect.w == s.rect.w && r.rect.h == s.rect.h
    ensures script != [] ==> r.velocity <= MaxFallSpeed && (r.onGround ==> r.velocity == 0 && !r.jumping)
    decreases |script|
  {
    if script == [] then s
    else Ticked(Played(s, script[..|script| - 1], platforms, toPixel), script[|script| - 1], platforms, toPixel)
  }

  /** However long the game is played, the player's state stays consistent. */
  lemma {:induction false} PlayedConsistent(s: PlayerState, script: seq<Input>, platforms: seq<Rect>, toPixel: int -> int)
    requires Consistent(s)
    ensures Consistent(Played(s, script, platforms, toPixel))
    decreases |script|
  {
    if script != [] {
      PlayedConsistent(s, script[..|script| - 1], platforms, toPixel);
      TickConsistent(Played(s, script[..|script| - 1], platforms, toPixel), script[|script| - 1], platforms, toPixel);
    }
  }

  /** Index of the first tick whose events include Quit, or |script| when none does. */
  function QuitTick(script: seq<Input>): (k: nat)
    ensures k <= |script|
    ensures k < |script| ==> Quit in script[k].events
    ensures forall i :: 0 <= i < k ==> Quit !in script[i].events
    decreases |script|
  {
    if script == [] then 0
    else if Quit in script[0].events then 0
    else 1 + QuitTick(script[1..])
  }

  class Game {
    const player: Player
    /** The platform group, in the order the platforms were added. */
    const platforms: seq<Rect>

    /** Game.__init__ (main.py:105-114): a fresh player and the level's platforms. */
    constructor ()
      ensures fresh(player) && player.State() == Spawn && player.Valid()
      ensures platforms == Platforms
    {
      var created := CreatePlatforms();
      player := new Player();
      platforms := created;
    }

    /** One pass of the loop body (main.py:142-158), rendering and clock left
        out. `quit` reports whether a Quit event was among the events, which
        is when the loop sets `running` to false; the rest of the tick is
        carried out all the same. */
    method Tick(input: Input, toPixel: int -> int) returns (quit: bool)
      modifies player
      ensures quit <==> Quit in input.events
      ensures player.State() == Ticked(old(player.State()), input, platforms, toPixel)
      ensures old(player.Valid()) ==> player.Valid()
    {
      ghost var start := player.State();
      quit := false;
      for i := 0 to |input.events|
        invariant quit <==> Quit in input.events[..i]
        invariant HandleEvents(player.State(), input.events[i..]) == HandleEvents(start, input.events)
        invariant Consistent(start) ==> player.Valid()
      {
        assert input.events[i..][1..] == input.events[i + 1..];
        assert input.events[..i + 1] == input.events[..i] + [input.events[i]];
        match input.events[i]
        case Quit =>
          quit := true;
        case KeyDown(key) =>
          if key == Space {
            player.Jump();
          }
        case OtherEvent =>
      }
      assert input.events[..|input.events|] == input.events;
      if input.leftHeld {
        player.MoveLeft();
      }
      if input.rightHeld {
        player.MoveRight();
      }
      player.Update(platforms, toPixel);
    }

    /** Game.run (main.py:136-168) driven by a finite script of inputs, one per
        tick: it runs ticks until the tick in which Quit arrives, that tick
        included, or until the script ends, and returns how many it ran. */
    method Run(script: seq<Input>, toPixel: int -> int) returns (ticks: nat)
      modifies player
      ensures ticks == if QuitTick(script) < |script| then QuitTick(script) + 1 else |script|
      ensures player.State() == Played(old(player.State()), script[..ticks], platforms, toPixel)
      ensures old(player.Valid()) ==> player.Valid()
    {
      ghost var start := player.State();
      var running := true;
      ticks := 0;
      while running && ticks < |script|
        invariant ticks <= |script|
        invariant running ==> ticks <= QuitTick(script)
        invariant !running ==> ticks == QuitTick(script) + 1 && QuitTick(script) < |script|
        invariant player.State() == Played(start, script[..ticks], platforms, toPixel)
        invariant old(player.Valid()) ==> player.Valid()
        decreases |script| - ticks, running
      {
        var quit := Tick(script[ticks], toPixel);
        if quit {
          running := false;
        }
        assert script[..ticks + 1][..ticks] == script[..ticks];
        ticks := ticks + 1;
      }
    }
  }
}
