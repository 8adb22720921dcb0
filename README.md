# Platform game physics, modelled in Dafny

This project models the core of a small pygame platformer (`main.py`): a
30x50 player rectangle under gravity, which jumps and walks among six fixed
platforms in a 500x500 window. The model covers:

- the player's physics and controls as functions on a `PlayerState` value (module `Physics`);
- the `Player` sprite as a class whose `Update`, `Jump`, `MoveLeft` and `MoveRight`
  methods change its fields in place and are proved equal to those functions (module `Sprites`);
- the level built by `create_platforms`, as a constant list with a method that
  builds it the way the source does (module `Level`);
- one tick of the game loop and the `while running` loop itself, with the
  events and held keys of each tick given as an `Input` value (module `GameLoop`).

Modelling choices:

- **Velocity in half-units.** `velocity_y` only ever takes multiples of 0.5. It
  gains 0.5 per tick, is capped at 10, and is set to -12 or 0. The model counts
  it as an integer number of half-units: gravity 1, cap 20, jump -24.
- **Storing a fractional y.** `rect.y += velocity_y` stores a possibly
  fractional value in an integer `Rect`. The conversion happens inside pygame,
  so the model takes it as a parameter `toPixel`. It maps the exact new
  position, counted in half-units, to the stored integer. The one assumption
  made of it (`Physics.IsPixelConversion`) is that the result is the integer
  just below or just above the exact value. Truncation and rounding both meet
  this, and whole values come out exact. Only the lemmas that relate positions
  to velocities need the assumption.
- **Overlap.** `colliderect` is modelled by `Geometry.Collides`: the open
  intervals intersect on both axes, so rectangles that only share an edge do
  not collide.
- **Platforms.** A platform is only its rectangle. The platform group is a
  sequence in insertion order, the order a pygame `Group` iterates in.
- **Ticks.** The input of a tick is the list of pending events plus the
  held state of the Left and Right keys. Only a Space key-down does anything
  among the key events. A Quit event ends the loop only after the rest of that
  tick is done, as in the source.

`rect.y` holds an integer, so after the first tick from (100, 300) y is 300
or 301, not 300.5 (`GameLoop.FirstTickFalls`). `colliderect` does not count a
shared edge as overlap (`Geometry.StackedDoNotCollide`).

## Model

| member | source | states |
|---|---|---|
| `Geometry.Collides` | main.py:67 | colliderect: rectangles of positive size collide exactly when they have a pixel in common (the pixel at the larger x and larger y is one) |
| `Geometry.CollidesSymmetric` | main.py:67 | overlap of two rectangles does not depend on their order |
| `Geometry.StackedDoNotCollide` | main.py:67-69 | a rectangle whose bottom edge is another's top edge does not collide with it (touching is not overlap) |
| `Physics.Accelerated` | main.py:57-59 | gravity adds 0.5 to the velocity unless that would pass 10, in which case it is 10 |
| `Physics.Fall` | main.py:56-65 | gravity, the vertical move and the reset of `on_ground`: velocity at most 10, not grounded, `jumping`, x and size kept |
| `Physics.Collide` | main.py:67-75 | one platform of the scan: the player changes only if it overlaps the platform while moving, and then it stops (velocity 0) clear of the platform, x and size kept; it becomes grounded only by a falling snap, which clears `jumping` |
| `Physics.Resolve` | main.py:66-75 | the scan over all platforms in order keeps x and size, leaves the velocity as it was or at 0, and keeps "grounded means at rest and not jumping" |
| `Physics.Update` | main.py:55-75 | update never changes x, width or height, leaves velocity at most 10, and when it leaves the player grounded the player is at rest and not jumping |
| `Physics.FirstCollision` | main.py:66-67 | the index returned is the first platform the player overlaps: every earlier one is clear, and it is the number of platforms when none overlaps |
| `Physics.ResolveAtRest` | main.py:66-75 | once the velocity is 0, the rest of the platform scan changes nothing |
| `Physics.ResolveFirst` | main.py:66-75 | the whole scan equals resolving against the first overlapping platform alone, so at most one snap happens per update |
| `Physics.UpdateVelocityCapped` | main.py:57-75 | after update the velocity is at most 10 and is either 0 or the gravity-updated value |
| `Physics.UpdateFreeFall` | main.py:56-65 | with no overlap, or velocity 0 after gravity, update adds 0.5 (capped at 10), moves y by it, keeps `jumping` and clears `on_ground` |
| `Physics.UpdateLands` | main.py:66-72 | falling onto the first overlapping platform puts the player's bottom on its top, clear of it, with velocity 0, grounded and not jumping, x and size unchanged |
| `Physics.UpdateBumpsHead` | main.py:73-75 | rising into the first overlapping platform puts the player's top on its bottom, clear of it, with velocity 0, not grounded, `jumping` unchanged |
| `Physics.UpdateGroundedIff` | main.py:65-72 | after update, `on_ground` holds exactly when a falling player met a platform in this call, and then velocity is 0 and `jumping` is false |
| `Physics.UpdateConsistent` | main.py:55-75 | update preserves the state invariant: size, horizontal bounds, velocity within [-12, 10] and the two flags consistent |
| `Physics.Jumped` | main.py:77-81 | jump never moves the rectangle; when it changes anything, the player was grounded and not jumping and is now jumping, airborne, at velocity -12 |
| `Physics.JumpGuard` | main.py:77-81 | jump starts a jump (velocity -12, jumping, not grounded) exactly when grounded and not jumping; otherwise it changes nothing |
| `Physics.JumpIdempotent` | main.py:77-81 | a second jump right after a first one has no effect |
| `Physics.JumpConsistent` | main.py:77-81 | jump preserves the state invariant |
| `Physics.JumpThenUpdateRises` | main.py:55-81 | a jump from the ground followed by an update with nothing overhead leaves velocity -11.5 and moves the player up at least 11 pixels |
| `Physics.MovedLeft` | main.py:83-86 | move_left leaves x at least 0 and at most 5 pixels to the left, and changes nothing but x |
| `Physics.MovedRight` | main.py:88-91 | move_right leaves the right edge at most 500 and at most 5 pixels further right, and changes nothing but x |
| `Physics.MoveLeftClamps` | main.py:83-86 | move_left sets x to max(x - 5, 0) and changes nothing else |
| `Physics.MoveRightClamps` | main.py:88-91 | move_right sets the right edge to min(right + 5, 500) and changes nothing else |
| `Physics.MovesStayOnScreen` | main.py:83-91 | a player inside the window horizontally stays inside after either move |
| `Physics.LeftPressesReachWall` | main.py:83-86 | n presses of Left put x at max(x - 5n, 0): exactly 0 and no further |
| `Physics.RightPressesReachWall` | main.py:88-91 | n presses of Right put the right edge at min(right + 5n, 500): exactly 500 and no further |
| `Physics.MovesConsistent` | main.py:83-91 | both moves preserve the state invariant |
| `Level.PlatformAt` | main.py:94-101 | a platform is the rectangle with top-left corner (x, y) and size width x height |
| `Level.PlatformsLayout` | main.py:116-134 | the level has six platforms, ground first; each lies inside the 500x500 window and no two overlap |
| `Level.CreatePlatforms` | main.py:116-134 | builds the ground and then one platform per ledge position in order, which is exactly the level's list, on screen and pairwise disjoint |
| `Sprites.Player.constructor` | main.py:43-53 | a new player is a 30x50 rectangle at (100, 300), at rest, neither jumping nor grounded |
| `Sprites.Player.Update` | main.py:55-75 | the fields after update are the `Physics.Update` of the fields before (the scan's loop invariant), and the state invariant is kept |
| `Sprites.Player.Jump` | main.py:77-81 | the fields after jump are the `Physics.Jumped` of the fields before |
| `Sprites.Player.MoveLeft` | main.py:83-86 | the fields after move_left are the `Physics.MovedLeft` of the fields before |
| `Sprites.Player.MoveRight` | main.py:88-91 | the fields after move_right are the `Physics.MovedRight` of the fields before |
| `GameLoop.HandleEvents` | main.py:143-148 | the event loop never moves the player; when it changes anything, a Space key-down was among the events and the player was grounded and not jumping |
| `GameLoop.Ticked` | main.py:142-158 | one tick keeps the player's size, keeps x when no arrow key is held, leaves velocity at most 10, and grounded implies at rest and not jumping |
| `GameLoop.HandleEventsJumpOnce` | main.py:143-148 | a tick's events act on the player as one jump if a Space key-down is among them, and not at all otherwise |
| `GameLoop.TickConsistent` | main.py:142-158 | a whole tick (events, held keys, update) preserves the state invariant |
| `GameLoop.FirstTickFalls` | main.py:43-62 | the first tick after start-up with no input leaves velocity 0.5, y at 300 or 301, x at 100, touching no platform |
| `GameLoop.Played` | main.py:138-158 | ticks played in order keep the player's size, and after at least one tick velocity is at most 10 and grounded implies at rest and not jumping |
| `GameLoop.PlayedConsistent` | main.py:138-158 | any number of ticks preserves the state invariant, so the player never leaves the window horizontally |
| `GameLoop.QuitTick` | main.py:143-145 | the index returned is the first tick whose events contain Quit, or the script's length when none does |
| `GameLoop.Game.constructor` | main.py:105-114 | a new game has a fresh player in its start state and the level's six platforms |
| `GameLoop.Game.Tick` | main.py:142-158 | one tick handles events in order, then Left before Right, then update; reports whether Quit arrived |
| `GameLoop.Game.Run` | main.py:136-168 | the loop runs tick after tick up to and including the first tick with a Quit, and the player ends in the state of those ticks played in order |

## Left out

- Window, caption, clock and frame-rate limiting, and all drawing (`screen.fill`, `Group.draw`, `display.flip`): these are rendering and timing done by pygame.
- `load_image` and the creation of the `assets` directory: file I/O, and no image is loaded on the game's path.
- `pygame.event.get` and `pygame.key.get_pressed`: each tick's events and held keys are an `Input` value instead.
- `pygame.quit()` and `sys.exit()`: the model stops at `running` becoming false.
- `GameLoop.Game.Run`: it is driven by a finite script of inputs, so it also stops when the script runs out; the real loop runs ticks until a Quit event arrives, which may be never.
- Colours, images and the sprite groups' bookkeeping: they do not affect behaviour.
- pygame's exact conversion of a fractional y to an integer: it is the `toPixel` parameter, with only the assumption above.
- `Geometry.Collides`: pygame's `colliderect` also reports no collision for a rectangle of zero width or height, and the shared-pixel reading is stated only for positive sizes; every rectangle here has a positive size, so other sizes are not modelled.
- The 32-bit range of pygame's `Rect` coordinates: coordinates are unbounded integers.
