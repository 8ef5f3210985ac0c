/**
 * The user preference store: a fixed list of typed preferences with defaults, setters that
 * assign and notify only when the value changes, a list of listeners notified in order, and
 * the metadata list a settings dialog walks (only the preferences shown in the UI).
 */
module Preferences {

  /** The preferences, in list order; the enum value of each is its position in the list. */
  datatype PreferenceId =
    | EnableVerticalSync | ShowFramerate | FramerateLimit | CurrentLayout | LayoutImageFollowMode
    | CalendarRowPitch | CalendarColPitch | MonthPadding | YearPadding
    | CompactRowPitch | CompactColPitch | CompactDayPadding | CompactYearPadding | CompactRowCount
    | ImageSize | ImageMoveTime
    | CameraSlewScalar | CameraSlewEnabled | CameraVelocityDecay
    | CameraZoomSensitivity | CameraZoomWheelFactor | CameraZoomWheelTime
    | CameraZoomMagnification | CameraZoomTime
    | SaveCameraPosition | SavedCameraX | SavedCameraY | SavedCameraZ

  /** The declared data type of a preference; LayoutIndex is an int, FloatSlider a float. */
  datatype PreferenceType = IntType | BoolType | FloatType | LayoutIndexType | FloatSliderType

  /** A stored preference value. */
  datatype PrefValue = BoolValue(b: bool) | IntValue(i: int) | RealValue(r: real)

  const AllPreferences: seq<PreferenceId> := [
    EnableVerticalSync, ShowFramerate, FramerateLimit, CurrentLayout, LayoutImageFollowMode,
    CalendarRowPitch, CalendarColPitch, MonthPadding, YearPadding,
    CompactRowPitch, CompactColPitch, CompactDayPadding, CompactYearPadding, CompactRowCount,
    ImageSize, ImageMoveTime,
    CameraSlewScalar, CameraSlewEnabled, CameraVelocityDecay,
    CameraZoomSensitivity, CameraZoomWheelFactor, CameraZoomWheelTime,
    CameraZoomMagnification, CameraZoomTime,
    SaveCameraPosition, SavedCameraX, SavedCameraY, SavedCameraZ]

  /** The enum value of a preference id. */
  function Ordinal(id: PreferenceId): nat
  {
    match id
    case EnableVerticalSync => 0
    case ShowFramerate => 1
    case FramerateLimit => 2
    case CurrentLayout => 3
    case LayoutImageFollowMode => 4
    case CalendarRowPitch => 5
    case CalendarColPitch => 6
    case MonthPadding => 7
    case YearPadding => 8
    case CompactRowPitch => 9
    case CompactColPitch => 10
    case CompactDayPadding => 11
    case CompactYearPadding => 12
    case CompactRowCount => 13
    case ImageSize => 14
    case ImageMoveTime => 15
    case CameraSlewScalar => 16
    case CameraSlewEnabled => 17
    case CameraVelocityDecay => 18
    case CameraZoomSensitivity => 19
    case CameraZoomWheelFactor => 20
    case CameraZoomWheelTime => 21
    case CameraZoomMagnification => 22
    case CameraZoomTime => 23
    case SaveCameraPosition => 24
    case SavedCameraX => 25
    case SavedCameraY => 26
    case SavedCameraZ => 27
  }

  function TypeOf(id: PreferenceId): PreferenceType
  {
    match id
    case EnableVerticalSync | ShowFramerate | LayoutImageFollowMode
      | CameraSlewEnabled | SaveCameraPosition => BoolType
    case FramerateLimit | CompactRowCount => IntType
    case CurrentLayout => LayoutIndexType
    case ImageSize => FloatSliderType
    case _ => FloatType
  }

  /** The default value of every preference, as the list gives it. */
  function Default(id: PreferenceId): PrefValue
  {
    match id
    case EnableVerticalSync => BoolValue(true)
    case ShowFramerate => BoolValue(false)
    case FramerateLimit => IntValue(60)
    case CurrentLayout => IntValue(0)
    case LayoutImageFollowMode => BoolValue(false)
    case CalendarRowPitch => RealValue(15.0)
    case CalendarColPitch => RealValue(1.0)
    case MonthPadding => RealValue(1.0)
    case YearPadding => RealValue(1.0)
    case CompactRowPitch => RealValue(1.0)
    case CompactColPitch => RealValue(1.0)
    case CompactDayPadding => RealValue(1.0)
    case CompactYearPadding => RealValue(1.0)
    case CompactRowCount => IntValue(1)
    case ImageSize => RealValue(1.0)
    case ImageMoveTime => RealValue(1.0)
    case CameraSlewScalar => RealValue(0.1)
    case CameraSlewEnabled => BoolValue(false)
    case CameraVelocityDecay => RealValue(200.0)
    case CameraZoomSensitivity => RealValue(1.0)
    case CameraZoomWheelFactor => RealValue(2.718)
    case CameraZoomWheelTime => RealValue(0.25)
    case CameraZoomMagnification => RealValue(100.0)
    case CameraZoomTime => RealValue(0.5)
    case SaveCameraPosition => BoolValue(false)
    case SavedCameraX => RealValue(0.0)
    case SavedCameraY => RealValue(0.0)
    case SavedCameraZ => RealValue(0.0)
  }

  /** Whether a preference is listed for the settings dialog: all but the saved camera position. */
  predicate DisplayInUI(id: PreferenceId)
  {
    !(id.SavedCameraX? || id.SavedCameraY? || id.SavedCameraZ?)
  }

  predicate HasType(t: PreferenceType, v: PrefValue)
  {
    match t
    case IntType | LayoutIndexType => v.IntValue?
    case BoolType => v.BoolValue?
    case FloatType | FloatSliderType => v.RealValue?
  }

  /** Every id is in the list, at the position given by its enum value. */
  lemma ListedAtOrdinal(id: PreferenceId)
    ensures Ordinal(id) < |AllPreferences| && AllPreferences[Ordinal(id)] == id
  {
  }

  /**
   * The stored values in enum order, as the constructor assigns them: every preference gets its
   * default.
   */
  function DefaultValues(): (vs: seq<PrefValue>)
    ensures WellTyped(vs)
    ensures forall id :: vs[Ordinal(id)] == Default(id)
  {
    var vs := seq(|AllPreferences|, k requires 0 <= k < |AllPreferences| => Default(AllPreferences[k]));
    forall id
      ensures Ordinal(id) < |vs| && vs[Ordinal(id)] == Default(id)
      ensures HasType(TypeOf(id), vs[Ordinal(id)])
    {
      ListedAtOrdinal(id);
      DefaultWellTyped(id);
    }
    vs
  }

  lemma DefaultWellTyped(id: PreferenceId)
    ensures HasType(TypeOf(id), Default(id))
  {
  }

  /** A metadata entry: which preference it describes and its data type. */
  datatype PreferenceData = PreferenceData(id: PreferenceId, dataType: PreferenceType)

  /** The metadata entries pushed for a list of preferences: the displayed ones, in order. */
  function DisplayedOf(ids: seq<PreferenceId>): seq<PreferenceData>
  {
    if |ids| == 0 then []
    else
      var last := ids[|ids| - 1];
      DisplayedOf(ids[..|ids| - 1]) + (if DisplayInUI(last) then [PreferenceData(last, TypeOf(last))] else [])
  }

  /** Every metadata entry describes a displayed preference of the list, with that preference's type. */
  lemma {:induction false} DisplayedOfSound(ids: seq<PreferenceId>)
    ensures forall k :: 0 <= k < |DisplayedOf(ids)| ==>
      DisplayedOf(ids)[k].id in ids && DisplayInUI(DisplayedOf(ids)[k].id)
      && DisplayedOf(ids)[k].dataType == TypeOf(DisplayedOf(ids)[k].id)
  {
    if |ids| != 0 {
      DisplayedOfSound(ids[..|ids| - 1]);
      assert forall x :: x in ids[..|ids| - 1] ==> x in ids;
    }
  }

  /** Every displayed preference of the list has a metadata entry. */
  lemma {:induction false} DisplayedOfComplete(ids: seq<PreferenceId>, id: PreferenceId)
    requires id in ids && DisplayInUI(id)
    ensures exists k :: 0 <= k < |DisplayedOf(ids)| && DisplayedOf(ids)[k].id == id
  {
    var init := ids[..|ids| - 1];
    var last := ids[|ids| - 1];
    if id == last {
      assert DisplayedOf(ids)[|DisplayedOf(ids)| - 1].id == id;
    } else {
      assert id in init by {
        var j :| 0 <= j < |ids| && ids[j] == id;
        assert init[j] == id;
      }
      DisplayedOfComplete(init, id);
      var k :| 0 <= k < |DisplayedOf(init)| && DisplayedOf(init)[k].id == id;
      assert DisplayedOf(ids)[k] == DisplayedOf(init)[k];
    }
  }

  predicate OrdinalsIncreasing(ids: seq<PreferenceId>)
  {
    forall i, j :: 0 <= i < j < |ids| ==> Ordinal(ids[i]) < Ordinal(ids[j])
  }

  function IdsOf(ds: seq<PreferenceData>): (r: seq<PreferenceId>)
    ensures |r| == |ds| && forall k :: 0 <= k < |ds| ==> r[k] == ds[k].id
  {
    if |ds| == 0 then [] else IdsOf(ds[..|ds| - 1]) + [ds[|ds| - 1].id]
  }

  /** The metadata keeps list order: its ids appear in increasing enum order. */
  lemma {:induction false} DisplayedOfOrdered(ids: seq<PreferenceId>)
    requires OrdinalsIncreasing(ids)
    ensures OrdinalsIncreasing(IdsOf(DisplayedOf(ids)))
  {
    if |ids| != 0 {
      var init := ids[..|ids| - 1];
      var last := ids[|ids| - 1];
      DisplayedOfOrdered(init);
      DisplayedOfSound(init);
      if DisplayInUI(last) {
        var d := IdsOf(DisplayedOf(ids));
        var di := IdsOf(DisplayedOf(init));
        LastExceedsEarlier(ids);
        forall i, j | 0 <= i < j < |d|
          ensures Ordinal(d[i]) < Ordinal(d[j])
        {
          assert d[i] == di[i] && d[i] in init;
          if j < |d| - 1 {
            assert d[j] == di[j];
          }
        }
      } else {
        assert DisplayedOf(ids) == DisplayedOf(init);
      }
    }
  }

  /** In an increasing list, the last id comes after every earlier one. */
  lemma LastExceedsEarlier(ids: seq<PreferenceId>)
    requires |ids| > 0 && OrdinalsIncreasing(ids)
    ensures forall x :: x in ids[..|ids| - 1] ==> Ordinal(x) < Ordinal(ids[|ids| - 1])
  {
    forall x | x in ids[..|ids| - 1]
      ensures Ordinal(x) < Ordinal(ids[|ids| - 1])
    {
      var m :| 0 <= m < |ids| - 1 && ids[m] == x;
    }
  }

  lemma AllPreferencesOrdered()
    ensures OrdinalsIncreasing(AllPreferences)
  {
    forall i, j | 0 <= i < j < |AllPreferences|
      ensures Ordinal(AllPreferences[i]) < Ordinal(AllPreferences[j])
    {
      ListedAtOrdinal(AllPreferences[i]);
      ListedAtOrdinal(AllPreferences[j]);
      assert Ordinal(AllPreferences[i]) == i by {
        ListedAtOrdinalInverse(i);
      }
      assert Ordinal(AllPreferences[j]) == j by {
        ListedAtOrdinalInverse(j);
      }
    }
  }

  lemma ListedAtOrdinalInverse(k: int)
    requires 0 <= k < |AllPreferences|
    ensures Ordinal(AllPreferences[k]) == k
  {
  }

  /**
   * The metadata list of the store: exactly the preferences shown in the UI, each once, in list
   * order, with its own data type; the three saved-camera coordinates are not in it.
   */
  lemma MetadataIsDisplayedPreferences()
    ensures forall k :: 0 <= k < |DisplayedOf(AllPreferences)| ==>
      DisplayInUI(DisplayedOf(AllPreferences)[k].id)
      && DisplayedOf(AllPreferences)[k].dataType == TypeOf(DisplayedOf(AllPreferences)[k].id)
    ensures forall id :: DisplayInUI(id) ==>
      exists k :: 0 <= k < |DisplayedOf(AllPreferences)| && DisplayedOf(AllPreferences)[k].id == id
    ensures OrdinalsIncreasing(IdsOf(DisplayedOf(AllPreferences)))
  {
    DisplayedOfSound(AllPreferences);
    forall id | DisplayInUI(id)
      ensures exists k :: 0 <= k < |DisplayedOf(AllPreferences)| && DisplayedOf(AllPreferences)[k].id == id
    {
      ListedAtOrdinal(id);
      DisplayedOfComplete(AllPreferences, id);
    }
    AllPreferencesOrdered();
    DisplayedOfOrdered(AllPreferences);
  }

  /** The preference values the camera, the tiles and the layouts read each frame. */
  datatype Config = Config(
    framerateLimit: int,
    currentLayout: int,
    calendarRowPitch: real, calendarColPitch: real, monthPadding: real, yearPadding: real,
    compactRowPitch: real, compactColPitch: real, compactDayPadding: real,
    compactYearPadding: real, compactRowCount: int,
    imageSize: real, imageMoveTime: real,
    cameraSlewScalar: real, cameraSlewEnabled: bool, cameraVelocityDecay: real)

  /** The values, stored in enum order, each of its preference's declared type. */
  predicate WellTyped(values: seq<PrefValue>)
  {
    |values| == |AllPreferences|
    && forall id :: Ordinal(id) < |values| && HasType(TypeOf(id), values[Ordinal(id)])
  }

  /** The stored value of a preference. */
  function At(values: seq<PrefValue>, id: PreferenceId): (v: PrefValue)
    requires WellTyped(values)
    ensures HasType(TypeOf(id), v)
  {
    values[Ordinal(id)]
  }

  /** The configuration record read out of a well-typed set of values. */
  function Snapshot(values: seq<PrefValue>): Config
    requires WellTyped(values)
  {
    Config(
      At(values, FramerateLimit).i, At(values, CurrentLayout).i,
      At(values, CalendarRowPitch).r, At(values, CalendarColPitch).r, At(values, MonthPadding).r, At(values, YearPadding).r,
      At(values, CompactRowPitch).r, At(values, CompactColPitch).r, At(values, CompactDayPadding).r,
      At(values, CompactYearPadding).r, At(values, CompactRowCount).i,
      At(values, ImageSize).r, At(values, ImageMoveTime).r,
      At(values, CameraSlewScalar).r, At(values, CameraSlewEnabled).b, At(values, CameraVelocityDecay).r)
  }

  /** A listener, by identity: the same listener may be registered twice. */
  type ListenerId = nat

  class UserPreferences {
    /** The current value of every preference. */
    var values: seq<PrefValue>
    /** The metadata list, built once by the constructor. */
    var metadata: seq<PreferenceData>
    /** The registered listeners, in registration order. */
    var listeners: seq<ListenerId>
    /** Every listener callback made so far, in call order. */
    var notified: seq<ListenerId>

    ghost predicate Valid()
      reads this
    {
      WellTyped(values)
    }

    /** The defaults are assigned, then the metadata of every displayed preference is pushed. */
    constructor ()
      ensures Valid()
      ensures values == DefaultValues()
      ensures metadata == DisplayedOf(AllPreferences)
      ensures listeners == [] && notified == []
    {
      values := DefaultValues();
      listeners := [];
      notified := [];
      var i := 0;
      var m: seq<PreferenceData> := [];
      while i < |AllPreferences|
        invariant 0 <= i <= |AllPreferences|
        invariant m == DisplayedOf(AllPreferences[..i])
      {
        var id := AllPreferences[i];
        assert AllPreferences[..i + 1][..i] == AllPreferences[..i];
        if DisplayInUI(id) {
          m := m + [PreferenceData(id, TypeOf(id))];
        }
        i := i + 1;
      }
      assert AllPreferences[..i] == AllPreferences;
      metadata := m;
    }

    /** The stored value of a preference, of the preference's declared type. */
    function Get(id: PreferenceId): (v: PrefValue)
      reads this
      requires Valid()
      ensures HasType(TypeOf(id), v)
    {
      At(values, id)
    }

    /** Appends a listener; registering the same listener twice is allowed. */
    method AddUserPreferenceListener(l: ListenerId)
      modifies this`listeners
      ensures listeners == old(listeners) + [l]
    {
      listeners := listeners + [l];
    }

    /** Calls every registered listener once, in registration order. */
    method FireUserPreferenceUpdateEvent()
      modifies this`notified
      ensures notified == old(notified) + listeners
    {
      var i := 0;
      while i < |listeners|
        invariant 0 <= i <= |listeners|
        invariant notified == old(notified) + listeners[..i]
      {
        notified := notified + [listeners[i]];
        assert listeners[..i + 1] == listeners[..i] + [listeners[i]];
        i := i + 1;
      }
      assert listeners[..i] == listeners;
    }

    /**
     * A generated setter: assigns and fires one update event only when the new value differs
     * from the stored one.
     */
    method Set(id: PreferenceId, v: PrefValue)
      requires Valid() && HasType(TypeOf(id), v)
      modifies this`values, this`notified
      ensures Valid()
      ensures old(At(values, id)) != v ==> values == old(values)[Ordinal(id) := v] && notified == old(notified) + listeners
      ensures old(At(values, id)) == v ==> values == old(values) && notified == old(notified)
    {
      if values[Ordinal(id)] != v {
        values := values[Ordinal(id) := v];
        FireUserPreferenceUpdateEvent();
      }
    }

    /** PreferenceData::Set: the same change-only rule, through a metadata entry. */
    method SetThrough(d: PreferenceData, v: PrefValue)
      requires Valid() && d in metadata && d.dataType == TypeOf(d.id) && HasType(d.dataType, v)
      modifies this`values, this`notified
      ensures Valid()
      ensures old(At(values, d.id)) != v ==> values == old(values)[Ordinal(d.id) := v] && notified == old(notified) + listeners
      ensures old(At(values, d.id)) == v ==> values == old(values) && notified == old(notified)
    {
      Set(d.id, v);
    }
  }

  /** A client's view: setting the same value twice notifies the listeners once. */
  method SetTwiceNotifiesOnce(p: UserPreferences, l: ListenerId)
    requires p.Valid() && p.listeners == [] && p.notified == [] && p.Get(ImageSize) == RealValue(1.0)
    modifies p
    ensures p.notified == [l]
    ensures p.Valid() && p.Get(ImageSize) == RealValue(2.0)
  {
    p.AddUserPreferenceListener(l);
    p.Set(ImageSize, RealValue(2.0));
    p.Set(ImageSize, RealValue(2.0));
  }
}
