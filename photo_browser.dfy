/**
 * The application controller: the mouse and key state its event handlers keep, the layout
 * selection that saves and restores a camera position per layout, the layout-cycling key,
 * the framerate floor applied on a preference update, and the closest-image follow that
 * runs in the frame after a layout change.
 */
module Browser {
  import opened Geometry
  import opened Preferences
  import opened Tiles
  import opened CameraEngine
  import IndexFormat
  import CompactLayout

  /** A mouse button as the window reports it. */
  datatype MouseButton = Left | Right | Middle

  /** A virtual key code. */
  type Key = nat

  const VKey: Key := 86

  /**
   * A registered layout: whether a camera position was saved for it, and that position.
   * Layouts are told apart by their place in the registration list.
   */
  datatype LayoutData = LayoutData(cameraSaved: bool, camera: Vec3)

  /**
   * A layout pass the controller asked for: which layout, and whether the layout was allowed to
   * recentre the camera. What a pass does to the tiles is modelled by the layout modules.
   */
  datatype LayoutPass = LayoutPass(layout: nat, recentre: bool)

  /** The state of a key, read as std::map's operator[] reads it: a missing key is up. */
  function KeyDown(keys: map<Key, bool>, k: Key): (down: bool)
    ensures down <==> k in keys && keys[k]
  {
    k in keys && keys[k]
  }

  /** The framerate limit after an update: a limit of zero or less becomes 5. */
  function FramerateFloor(limit: int): (r: int)
    ensures r > 0
    ensures limit > 0 ==> r == limit
    ensures limit <= 0 ==> r == 5
  {
    if limit <= 0 then 5 else limit
  }

  /**
   * The passes the preference-update handler adds after its own when it raises the framerate
   * floor: the re-entered run leaves the layout current, so the outer run lays it out again.
   */
  function FloorEcho(limit: int, current: nat): seq<LayoutPass>
  {
    if limit <= 0 then [LayoutPass(current, false)] else []
  }

  /** The layout the V key selects next: the one after the current one, wrapping around. */
  function NextLayout(current: int, count: nat): (next: nat)
    requires -1 <= current && count > 0
    ensures next < count
    ensures current + 1 < count ==> next == current + 1
    ensures current + 1 == count ==> next == 0
  {
    (current + 1) % count
  }

  /** The layout reached from `current` after k presses of the V key. */
  function CycleFrom(current: nat, k: nat, count: nat): nat
    requires current < count
  {
    if k == 0 then current else NextLayout(CycleFrom(current, k - 1, count), count)
  }

  /** k presses move k places along the list, wrapping around. */
  lemma {:induction false} CycleAdvances(current: nat, k: nat, count: nat)
    requires current < count
    ensures CycleFrom(current, k, count) == (current + k) % count
  {
    if k > 0 {
      CycleAdvances(current, k - 1, count);
      ModuloSuccessor(current + k - 1, count);
    }
  }

  /** As many presses as there are layouts come back to the starting layout. */
  lemma CycleReturns(current: nat, count: nat)
    requires current < count
    ensures CycleFrom(current, count, count) == current
    ensures forall k :: 0 < k < count ==> CycleFrom(current, k, count) != current
  {
    CycleAdvances(current, count, count);
    CompactLayout.DivModUnique(current + count, count, 1, current);
    forall k | 0 < k < count
      ensures CycleFrom(current, k, count) != current
    {
      CycleAdvances(current, k, count);
      if current + k < count {
        CompactLayout.DivModUnique(current + k, count, 0, current + k);
      } else {
        CompactLayout.DivModUnique(current + k, count, 1, current + k - count);
      }
    }
  }

  lemma ModuloSuccessor(a: nat, n: nat)
    requires n > 0
    ensures (a % n + 1) % n == (a + 1) % n
  {
    CompactLayout.NextQuotient(a, n);
    if a % n < n - 1 {
      CompactLayout.DivModUnique(a % n + 1, n, 0, a % n + 1);
    } else {
      CompactLayout.DivModUnique(n, n, 1, 0);
    }
  }

  /**
   * The controller compares its signed current index with an unsigned layout index, so -1 is
   * compared as 2^32 - 1; no registered index can equal that.
   */
  lemma UnsignedIndexComparison(current: int, index: nat, count: nat)
    requires -1 <= current < count && index < count <= IndexFormat.IntMax
    ensures (IndexFormat.ToUnsigned(current) != index) <==> (current != index)
  {
  }

  /** A tile's position in the xy plane. */
  function Planar(t: ImageTile): Vec2
    reads t
  {
    Vec2(t.pos.x, t.pos.y)
  }

  /** Tile k is the closest tile to the point, and every earlier tile is strictly farther. */
  ghost predicate FirstClosest(tiles: seq<ImageTile>, point: Vec2, k: nat)
    reads set t | t in tiles
  {
    k < |tiles|
    && (forall j :: 0 <= j < |tiles| ==> DistanceSquared(Planar(tiles[k]), point) <= DistanceSquared(Planar(tiles[j]), point))
    && (forall j :: 0 <= j < k ==> DistanceSquared(Planar(tiles[k]), point) < DistanceSquared(Planar(tiles[j]), point))
  }

  /** At most one tile is the first closest. */
  lemma FirstClosestUnique(tiles: seq<ImageTile>, point: Vec2, k: nat, m: nat)
    requires FirstClosest(tiles, point, k) && FirstClosest(tiles, point, m)
    ensures k == m
  {
    // each is at least as close as the other, so neither can come strictly first
    assert DistanceSquared(Planar(tiles[k]), point) <= DistanceSquared(Planar(tiles[m]), point);
    assert DistanceSquared(Planar(tiles[m]), point) <= DistanceSquared(Planar(tiles[k]), point);
  }

  lemma DistanceSymmetric(a: Vec2, b: Vec2)
    ensures DistanceSquared(a, b) == DistanceSquared(b, a)
  {
    assert (a.x - b.x) * (a.x - b.x) == (b.x - a.x) * (b.x - a.x);
    assert (a.y - b.y) * (a.y - b.y) == (b.y - a.y) * (b.y - a.y);
  }

  /**
   * The closest-image search of a frame: primed with tile 0, then every tile replaces the best
   * one only when strictly closer, so the first tile at the least distance wins.
   */
  method FindClosest(tiles: seq<ImageTile>, point: Vec2) returns (closest: nat)
    requires |tiles| > 0
    ensures closest < |tiles|
    ensures forall j :: 0 <= j < |tiles| ==> DistanceSquared(Planar(tiles[closest]), point) <= DistanceSquared(Planar(tiles[j]), point)
    ensures forall j :: 0 <= j < closest ==> DistanceSquared(Planar(tiles[closest]), point) < DistanceSquared(Planar(tiles[j]), point)
  {
    closest := 0;
    var best := DistanceSquared(point, Vec2(tiles[0].pos.x, tiles[0].pos.y));
    DistanceSymmetric(point, Planar(tiles[0]));
    var i := 0;
    while i < |tiles|
      invariant 0 <= i <= |tiles| && closest < |tiles| && (closest < i || closest == 0)
      invariant best == DistanceSquared(Planar(tiles[closest]), point)
      invariant forall j :: 0 <= j < i ==> best <= DistanceSquared(Planar(tiles[j]), point)
      invariant forall j :: 0 <= j < closest ==> best < DistanceSquared(Planar(tiles[j]), point)
    {
      var tile := tiles[i];
      var d := DistanceSquared(Vec2(tile.pos.x, tile.pos.y), point);
      if d < best {
        closest, best := i, d;
      }
      i := i + 1;
    }
  }

  class PhotoBrowser {
    /** The camera and the preference store; the application creates them at start-up. */
    const camera: Camera
    const prefs: UserPreferences

    var layoutChangedThisFrame: bool
    var windowReceivedFocusThisFrame: bool
    var allowClickZoomThisFrame: bool
    var done: bool

    /** The selected layout, -1 before the first selection. */
    var currentLayoutIndex: int
    var layouts: seq<LayoutData>
    /** The layout passes asked for so far, in order. */
    var passes: seq<LayoutPass>

    var leftClick: bool
    var rightClick: bool
    var leftClickRelease: bool
    var rightClickRelease: bool
    var leftClickPos: Vec2
    var rightClickPos: Vec2
    var leftDrag: Vec2
    var mousePos: Vec2
    var wheelAccumulator: real

    var keys: map<Key, bool>

    ghost predicate Valid()
      reads this, prefs
    {
      prefs.Valid() && -1 <= currentLayoutIndex < |layouts| && |layouts| <= IndexFormat.IntMax
    }

    /** Every flag clear, every position at zero, no layout selected or registered. */
    constructor (camera: Camera, prefs: UserPreferences)
      requires prefs.Valid()
      ensures Valid()
      ensures this.camera == camera && this.prefs == prefs
      ensures !layoutChangedThisFrame && !windowReceivedFocusThisFrame && !allowClickZoomThisFrame && !done
      ensures currentLayoutIndex == -1 && layouts == [] && passes == []
      ensures !leftClick && !rightClick && !leftClickRelease && !rightClickRelease
      ensures leftClickPos == Vec2(0.0, 0.0) && rightClickPos == Vec2(0.0, 0.0)
      ensures leftDrag == Vec2(0.0, 0.0) && mousePos == Vec2(0.0, 0.0)
      ensures wheelAccumulator == 0.0 && keys == map[]
    {
      this.camera := camera;
      this.prefs := prefs;
      layoutChangedThisFrame, windowReceivedFocusThisFrame, allowClickZoomThisFrame := false, false, false;
      done := false;
      currentLayoutIndex := -1;
      layouts := [];
      passes := [];
      leftClick, rightClick, leftClickRelease, rightClickRelease := false, false, false, false;
      leftClickPos, rightClickPos := Vec2(0.0, 0.0), Vec2(0.0, 0.0);
      leftDrag, mousePos := Vec2(0.0, 0.0), Vec2(0.0, 0.0);
      wheelAccumulator := 0.0;
      keys := map[];
    }

    /** Appends a layout with no saved camera position; its camera fields are left unset. */
    method RegisterLayout()
      requires Valid() && |layouts| < IndexFormat.IntMax
      modifies this`layouts
      ensures Valid()
      ensures |layouts| == |old(layouts)| + 1 && layouts[..|old(layouts)|] == old(layouts)
      ensures !layouts[|layouts| - 1].cameraSaved
    {
      var unset: Vec3 :| true;
      layouts := layouts + [LayoutData(false, unset)];
    }

    /**
     * SelectLayout: the outgoing layout keeps the camera position; the changed flag is raised
     * when the index differs; the incoming layout is applied, recentring the camera only when it
     * has no saved position, and otherwise the camera moves back to the saved position.
     */
    method SelectLayout(index: nat)
      requires Valid() && index < |layouts|
      modifies this`layouts, this`layoutChangedThisFrame, this`currentLayoutIndex, this`passes
      modifies camera`moveTime, camera`moveTo, camera`undoStack
      ensures Valid()
      ensures old(currentLayoutIndex) >= 0 ==> layouts == old(layouts)[old(currentLayoutIndex) := LayoutData(true, camera.pos)]
      ensures old(currentLayoutIndex) < 0 ==> layouts == old(layouts)
      ensures layoutChangedThisFrame <==> old(currentLayoutIndex) != index
      ensures currentLayoutIndex == index
      ensures passes == old(passes) + [LayoutPass(index, !layouts[index].cameraSaved)]
      ensures layouts[index].cameraSaved ==>
        camera.moveTo == layouts[index].camera && camera.moveTime == prefs.Get(ImageMoveTime).r
        && camera.undoStack == old(camera.undoStack) + [camera.pos]
      ensures !layouts[index].cameraSaved ==>
        camera.moveTo == old(camera.moveTo) && camera.moveTime == old(camera.moveTime)
        && camera.undoStack == old(camera.undoStack)
    {
      if currentLayoutIndex >= 0 {
        layouts := layouts[currentLayoutIndex := LayoutData(true, camera.pos)];
      }
      UnsignedIndexComparison(currentLayoutIndex, index, |layouts|);
      layoutChangedThisFrame := IndexFormat.ToUnsigned(currentLayoutIndex) != index;
      currentLayoutIndex := index;
      var data := layouts[index];
      passes := passes + [LayoutPass(index, !data.cameraSaved)];
      if data.cameraSaved {
        camera.MoveTo(data.camera, prefs.Get(ImageMoveTime).r);
      }
    }

    /**
     * The preference-update handler: the framerate floor, then, unless the application is
     * closing, a new layout is selected, or the current one is laid out again without
     * recentring. Raising the floor goes through the setter, which calls this handler once more
     * (the browser registers itself once at start-up); that inner run finds the floor met and
     * applies the layout preference, and the outer run then applies it again, so a raised floor
     * adds one further pass of the then current layout, without recentring.
     */
    method OnUserPreferenceUpdate()
      requires Valid()
      requires !done ==> 0 <= prefs.Get(CurrentLayout).i < |layouts|
      modifies prefs`values, prefs`notified
      modifies this`layouts, this`layoutChangedThisFrame, this`currentLayoutIndex, this`passes
      modifies camera`moveTime, camera`moveTo, camera`undoStack
      ensures Valid()
      ensures prefs.Get(FramerateLimit).i == FramerateFloor(old(prefs.Get(FramerateLimit).i))
      ensures old(prefs.Get(FramerateLimit).i) <= 0 ==>
        prefs.values == old(prefs.values)[Ordinal(FramerateLimit) := IntValue(5)]
        && prefs.notified == old(prefs.notified) + prefs.listeners
      ensures old(prefs.Get(FramerateLimit).i) > 0 ==> prefs.values == old(prefs.values) && prefs.notified == old(prefs.notified)
      ensures done ==> layouts == old(layouts) && passes == old(passes) && currentLayoutIndex == old(currentLayoutIndex)
      ensures !done && old(prefs.Get(CurrentLayout).i) != old(currentLayoutIndex) ==>
        currentLayoutIndex == old(prefs.Get(CurrentLayout).i) && layoutChangedThisFrame
        && passes == old(passes) + [LayoutPass(currentLayoutIndex, !layouts[currentLayoutIndex].cameraSaved)]
          + FloorEcho(old(prefs.Get(FramerateLimit).i), currentLayoutIndex)
      ensures !done && old(prefs.Get(CurrentLayout).i) == old(currentLayoutIndex) ==>
        currentLayoutIndex == old(currentLayoutIndex) && layouts == old(layouts)
        && passes == old(passes) + [LayoutPass(currentLayoutIndex, false)]
          + FloorEcho(old(prefs.Get(FramerateLimit).i), currentLayoutIndex)
        && layoutChangedThisFrame == old(layoutChangedThisFrame)
        && camera.moveTo == old(camera.moveTo) && camera.undoStack == old(camera.undoStack)
    {
      if prefs.Get(FramerateLimit).i <= 0 {
        prefs.Set(FramerateLimit, IntValue(5));
        // the handler run the setter starts: its floor test now fails
        ApplyLayoutPreference();
      }
      ApplyLayoutPreference();
    }

    /**
     * The layout part of the preference-update handler: unless the application is closing, a
     * layout index other than the current one is selected, and the current one is laid out
     * again without recentring.
     */
    method ApplyLayoutPreference()
      requires Valid()
      requires !done ==> 0 <= prefs.Get(CurrentLayout).i < |layouts|
      modifies this`layouts, this`layoutChangedThisFrame, this`currentLayoutIndex, this`passes
      modifies camera`moveTime, camera`moveTo, camera`undoStack
      ensures Valid() && |layouts| == old(|layouts|)
      ensures done ==> layouts == old(layouts) && passes == old(passes) && currentLayoutIndex == old(currentLayoutIndex)
      ensures !done && prefs.Get(CurrentLayout).i != old(currentLayoutIndex) ==>
        currentLayoutIndex == prefs.Get(CurrentLayout).i && layoutChangedThisFrame
        && passes == old(passes) + [LayoutPass(currentLayoutIndex, !layouts[currentLayoutIndex].cameraSaved)]
      ensures !done && prefs.Get(CurrentLayout).i == old(currentLayoutIndex) ==>
        currentLayoutIndex == old(currentLayoutIndex) && layouts == old(layouts)
        && passes == old(passes) + [LayoutPass(currentLayoutIndex, false)]
        && layoutChangedThisFrame == old(layoutChangedThisFrame)
        && camera.moveTo == old(camera.moveTo) && camera.undoStack == old(camera.undoStack)
    {
      if !done {
        var index: nat := prefs.Get(CurrentLayout).i;
        UnsignedIndexComparison(currentLayoutIndex, index, |layouts|);
        if index != IndexFormat.ToUnsigned(currentLayoutIndex) {
          SelectLayout(index);
        } else {
          passes := passes + [LayoutPass(index, false)];
        }
      }
    }

    /**
     * The V-key rule of the per-frame controls: reading the key enters it into the map as up if
     * it was missing; a pressed V is released and asks for the next layout through the
     * current-layout preference.
     */
    method CycleLayoutKey()
      requires Valid() && |layouts| > 0
      modifies this`keys, prefs`values, prefs`notified
      ensures Valid()
      ensures keys == old(keys)[VKey := false]
      ensures old(KeyDown(keys, VKey)) ==>
        prefs.values == old(prefs.values)[Ordinal(CurrentLayout) := IntValue(NextLayout(currentLayoutIndex, |layouts|))]
      ensures old(KeyDown(keys, VKey)) && old(prefs.Get(CurrentLayout)) != IntValue(NextLayout(currentLayoutIndex, |layouts|)) ==>
        prefs.notified == old(prefs.notified) + prefs.listeners
      ensures !old(KeyDown(keys, VKey)) || old(prefs.Get(CurrentLayout)) == IntValue(NextLayout(currentLayoutIndex, |layouts|)) ==>
        prefs.notified == old(prefs.notified)
      ensures !old(KeyDown(keys, VKey)) ==> prefs.values == old(prefs.values)
    {
      var pressed := KeyDown(keys, VKey);
      if VKey !in keys {
        keys := keys[VKey := false];
      }
      if pressed {
        keys := keys[VKey := false];
        var next := (currentLayoutIndex + 1) % |layouts|;
        prefs.Set(CurrentLayout, IntValue(next));
      }
    }

    /**
     * The closest-image follow and the frame-flag reset at the end of a frame. In the frame
     * after a layout change, with follow mode on, the camera moves so that the image that was
     * under the mouse (the first closest one, by its position before this frame's tile update)
     * is under it again at its new place.
     */
    method FinishFrame(tiles: seq<ImageTile>, near: Vec3, far: Vec3, followMode: bool) returns (followed: Option<nat>)
      requires Valid()
      requires layoutChangedThisFrame && followMode ==> |tiles| > 0 && near.z != far.z
      modifies camera`moveTime, camera`moveTo, camera`undoStack
      modifies this`windowReceivedFocusThisFrame, this`layoutChangedThisFrame
      ensures Valid()
      ensures !windowReceivedFocusThisFrame && !layoutChangedThisFrame
      ensures followed.Some? <==> old(layoutChangedThisFrame) && followMode
      ensures followed.None? ==>
        camera.moveTo == old(camera.moveTo) && camera.moveTime == old(camera.moveTime) && camera.undoStack == old(camera.undoStack)
      ensures followed.Some? ==>
        var k := followed.value;
        FirstClosest(tiles, ImagePlanePoint(near, far), k)
        && camera.moveTo == Vec3(tiles[k].goal.x + (camera.pos.x - tiles[k].pos.x),
                                 tiles[k].goal.y + (camera.pos.y - tiles[k].pos.y), camera.pos.z)
        && camera.moveTime == prefs.Get(ImageMoveTime).r
        && camera.undoStack == old(camera.undoStack) + [camera.pos]
    {
      followed := None;
      if layoutChangedThisFrame && followMode {
        var mouseWorld := ImagePlanePoint(near, far);
        var k := FindClosest(tiles, mouseWorld);
        var image := tiles[k];
        var view := VisibleBounds(camera.pos, camera.tanHalfFovy, camera.aspect);
        var goal := image.goal;
        var offsetX := (view.min.x + view.max.x) * 0.5 - image.pos.x;
        var offsetY := (view.min.y + view.max.y) * 0.5 - image.pos.y;
        camera.MoveTo(Vec3(goal.x + offsetX, goal.y + offsetY, camera.pos.z), prefs.Get(ImageMoveTime).r);
        followed := Some(k);
      }
      windowReceivedFocusThisFrame := false;
      layoutChangedThisFrame := false;
    }

    /** A press: a press just after the window got focus does not zoom; the press is recorded. */
    method OnClick(button: MouseButton, x: int, y: int)
      modifies this`allowClickZoomThisFrame, this`leftClick, this`leftClickPos, this`leftDrag
      modifies this`rightClick, this`rightClickPos, this`mousePos
      ensures allowClickZoomThisFrame == (old(allowClickZoomThisFrame) && !windowReceivedFocusThisFrame)
      ensures button.Left? ==>
        leftClick && leftClickPos == Vec2(x as real, y as real) && leftDrag == leftClickPos
        && rightClick == old(rightClick) && rightClickPos == old(rightClickPos)
      ensures button.Right? ==>
        rightClick && rightClickPos == Vec2(x as real, y as real)
        && leftClick == old(leftClick) && leftClickPos == old(leftClickPos) && leftDrag == old(leftDrag)
      ensures button.Middle? ==>
        leftClick == old(leftClick) && leftClickPos == old(leftClickPos) && leftDrag == old(leftDrag)
        && rightClick == old(rightClick) && rightClickPos == old(rightClickPos)
      ensures mousePos == Vec2(x as real, y as real)
    {
      if windowReceivedFocusThisFrame {
        allowClickZoomThisFrame := false;
      }
      var p := Vec2(x as real, y as real);
      if button == Left {
        leftClick := true;
        leftClickPos := p;
        leftDrag := p;
      } else if button == Right {
        rightClick := true;
        rightClickPos := p;
      }
      mousePos := p;
    }

    /** A release: the button's release flag takes its press flag, which is cleared. */
    method OnRelease(button: MouseButton, x: int, y: int)
      modifies this`leftClick, this`leftClickRelease, this`rightClick, this`rightClickRelease, this`mousePos
      ensures button.Left? ==>
        leftClickRelease == old(leftClick) && !leftClick
        && rightClick == old(rightClick) && rightClickRelease == old(rightClickRelease)
      ensures button.Right? ==>
        rightClickRelease == old(rightClick) && !rightClick
        && leftClick == old(leftClick) && leftClickRelease == old(leftClickRelease)
      ensures button.Middle? ==>
        leftClick == old(leftClick) && leftClickRelease == old(leftClickRelease)
        && rightClick == old(rightClick) && rightClickRelease == old(rightClickRelease)
      ensures mousePos == Vec2(x as real, y as real)
    {
      if button == Left {
        leftClickRelease := leftClick;
        leftClick := false;
      } else if button == Right {
        rightClickRelease := rightClick;
        rightClick := false;
      }
      mousePos := Vec2(x as real, y as real);
    }

    /** The mouse left the window: both buttons are released by the same rule. */
    method OnLeave()
      modifies this`leftClick, this`leftClickRelease, this`rightClick, this`rightClickRelease
      ensures leftClickRelease == old(leftClick) && !leftClick
      ensures rightClickRelease == old(rightClick) && !rightClick
    {
      leftClickRelease := leftClick;
      leftClick := false;
      rightClickRelease := rightClick;
      rightClick := false;
    }

    method OnMove(x: int, y: int)
      modifies this`mousePos
      ensures mousePos == Vec2(x as real, y as real)
    {
      mousePos := Vec2(x as real, y as real);
    }

    /** Wheel steps accumulate until the next frame's controls consume them. */
    method OnWheelRoll(roll: int)
      modifies this`wheelAccumulator
      ensures wheelAccumulator == old(wheelAccumulator) + roll as real
    {
      wheelAccumulator := wheelAccumulator + roll as real;
    }

    method OnKeyDown(k: Key)
      modifies this`keys
      ensures keys == old(keys)[k := true]
    {
      keys := keys[k := true];
    }

    method OnKeyUp(k: Key)
      modifies this`keys
      ensures keys == old(keys)[k := false]
    {
      keys := keys[k := false];
    }

    /** Every key already in the map is set up; no key is added. */
    method DebounceKeys()
      modifies this`keys
      ensures keys.Keys == old(keys).Keys
      ensures forall k :: k in keys ==> !keys[k]
    {
      var pending := keys.Keys;
      while pending != {}
        invariant pending <= keys.Keys && keys.Keys == old(keys).Keys
        invariant forall k :: k in keys && k !in pending ==> !keys[k]
        decreases pending
      {
        var k :| k in pending;
        keys := keys[k := false];
        pending := pending - {k};
      }
    }

    /** Focus gained is remembered for the frame; focus lost releases every key. */
    method OnFocus(focus: bool)
      modifies this`windowReceivedFocusThisFrame, this`keys
      ensures windowReceivedFocusThisFrame == (old(windowReceivedFocusThisFrame) || focus)
      ensures focus ==> keys == old(keys)
      ensures !focus ==> keys.Keys == old(keys).Keys && forall k :: k in keys ==> !keys[k]
    {
      windowReceivedFocusThisFrame := windowReceivedFocusThisFrame || focus;
      if !focus {
        DebounceKeys();
      }
    }

    method OnClose()
      modifies this`done
      ensures done
    {
      done := true;
    }
  }

  /** A press and release of the left button leaves a release for the next frame to handle. */
  method ClickAndRelease(b: PhotoBrowser, x: int, y: int)
    modifies b
    ensures b.leftClickRelease && !b.leftClick
    ensures b.leftClickPos == Vec2(x as real, y as real) && b.mousePos == b.leftClickPos
  {
    b.OnClick(Left, x, y);
    b.OnRelease(Left, x, y);
  }

  /** Selecting a layout twice in a row never recentres: the first selection saved the camera. */
  method ReselectKeepsCamera(b: PhotoBrowser, index: nat)
    requires b.Valid() && index < |b.layouts| && b.currentLayoutIndex >= 0
    modifies b, b.camera
    ensures b.Valid() && |b.layouts| == old(|b.layouts|) && |b.passes| == old(|b.passes|) + 2
    ensures b.currentLayoutIndex == index && !b.layoutChangedThisFrame
    ensures b.passes[|b.passes| - 1] == LayoutPass(index, false)
    ensures b.camera.moveTo == b.layouts[index].camera
  {
    b.SelectLayout(index);
    b.SelectLayout(index);
  }
}
