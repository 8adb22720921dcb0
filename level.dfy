/** The level: the ground and five ledges that Game.create_platforms builds
    (main.py:116-134). A platform is nothing but its rectangle. */
module Level {
  import opened Geometry

  /** The ground: the full width of the window, 40 pixels tall, at its bottom. */
  const Ground: Rect := Rect(0, ScreenHeight - 40, ScreenWidth, 40)

  /** The ledges as (x, y, width, height), in the order they are added. */
  const LedgePositions: seq<(int, int, int, int)> := [
    (100, 400, 100, 20),
    (300, 350, 100, 20),
    (150, 300, 100, 20),
    (400, 250, 100, 20),
    (200, 200, 100, 20)
  ]

  /** The platform list of a game: the ground first, then the ledges in order.
      Written out as the six rectangles themselves; CreatePlatforms proves that
      building them from Ground and LedgePositions gives exactly this list. */
  const Platforms: seq<Rect> := [
    Rect(0, 460, 500, 40),
    Rect(100, 400, 100, 20),
    Rect(300, 350, 100, 20),
    Rect(150, 300, 100, 20),
    Rect(400, 250, 100, 20),
    Rect(200, 200, 100, 20)
  ]

  /** No two platforms of the list overlap. */
  predicate PairwiseDisjoint(ps: seq<Rect>) {
    forall i, j :: 0 <= i < |ps| && 0 <= j < |ps| && i != j ==> !Collides(ps[i], ps[j])
  }

  /** The level's platforms lie inside the window and never overlap one another. */
  lemma {:induction false} PlatformsLayout()
    ensures |Platforms| == 6 && Platforms[0] == Ground
    ensures forall i :: 0 <= i < |Platforms| ==> OnScreen(Platforms[i])
    ensures PairwiseDisjoint(Platforms)
  {
    forall i, j | 0 <= i < j < |Platforms| ensures !Collides(Platforms[i], Platforms[j]) {
      var a, b := Platforms[i], Platforms[j];
      assert a.Bottom() <= b.Top() || b.Bottom() <= a.Top() ||
             a.Right() <= b.Left() || b.Right() <= a.Left();
    }
    forall i, j | 0 <= j < i < |Platforms| ensures !Collides(Platforms[i], Platforms[j]) {
      CollidesSymmetric(Platforms[i], Platforms[j]);
    }
  }

  /** Platform(x, y, width, height): the rectangle of a new platform, the
      width x height surface's rect placed with its top-left corner at (x, y). */
  function PlatformAt(position: (int, int, int, int)): (r: Rect)
    ensures r.Left() == position.0 && r.Top() == position.1
    ensures r.Right() - r.Left() == position.2 && r.Bottom() - r.Top() == position.3
  {
    Rect(position.0, position.1, position.2, position.3)
  }

  /** Game.create_platforms: the ground, then one platform per ledge position,
      giving exactly the level's six platforms, all on screen and disjoint. */
  method CreatePlatforms() returns (platforms: seq<Rect>)
    ensures |platforms| == 1 + |LedgePositions| && platforms[0] == Ground
    ensures forall i :: 0 <= i < |LedgePositions| ==> platforms[i + 1] == PlatformAt(LedgePositions[i])
    ensures platforms == Platforms
    ensures forall i :: 0 <= i < |platforms| ==> OnScreen(platforms[i])
    ensures PairwiseDisjoint(platforms)
  {
    platforms := [Ground];
    for i := 0 to |LedgePositions|
      invariant |platforms| == 1 + i && platforms[0] == Ground
      invariant forall j :: 0 <= j < i ==> platforms[j + 1] == PlatformAt(LedgePositions[j])
    {
      platforms := platforms + [PlatformAt(LedgePositions[i])];
    }
    assert platforms[1] == PlatformAt(LedgePositions[0]);
    assert platforms[2] == PlatformAt(LedgePositions[1]);
    assert platforms[3] == PlatformAt(LedgePositions[2]);
    assert platforms[4] == PlatformAt(LedgePositions[3]);
    assert platforms[5] == PlatformAt(LedgePositions[4]);
    PlatformsLayout();
  }
}
