/**
 * The mod's settings object: eight values with their defaults, setters
 * that ask the colonist bar to recache only when a value really changes,
 * persistence through the game's Scribe system, and the settings window that
 * lays out one row per value.
 *
 * The game is a `Host` object: whether it is in the play scene, whether a
 * colonist bar exists and is visible, and how often the bar rebuilt its
 * entries.
 */
module AdjusterSettings {
  import opened Wrappers
  import Util
  import ControlsBuilder

  const DefaultOffsetX: real := 0.0
  const DefaultOffsetY: real := 0.0
  const DefaultBaseScale: real := 1.0
  const DefaultColonistsPerRow: int := 28
  const DefaultMaxNumberOfRows: int := 3
  const DefaultMarginX: real := 24.0
  const DefaultMarginY: real := 32.0
  const DefaultHideBackground: bool := false

  /** The eight settings, as a value. */
  datatype SettingsValues = SettingsValues(
    offsetX: real, offsetY: real, baseScale: real,
    colonistsPerRow: int, maxNumberOfRows: int,
    marginX: real, marginY: real, hideBackground: bool)

  const Defaults := SettingsValues(
    DefaultOffsetX, DefaultOffsetY, DefaultBaseScale,
    DefaultColonistsPerRow, DefaultMaxNumberOfRows,
    DefaultMarginX, DefaultMarginY, DefaultHideBackground)

  /**
   * The parts of the game ApplyChanges looks at: whether the play scene is
   * loaded, whether it has a colonist bar and whether the bar is visible;
   * and the bar's `entriesDirty` flag and the number of times it rebuilt
   * its entries.
   */
  class Host {
    var inPlayScene: bool
    var barPresent: bool
    var barVisible: bool
    var entriesDirty: bool
    var recaches: nat

    constructor(inPlayScene: bool, barPresent: bool, barVisible: bool)
      ensures this.inPlayScene == inPlayScene && this.barPresent == barPresent && this.barVisible == barVisible
      ensures !entriesDirty && recaches == 0
    {
      this.inPlayScene := inPlayScene;
      this.barPresent := barPresent;
      this.barVisible := barVisible;
      entriesDirty := false;
      recaches := 0;
    }

    /** ApplyChanges reaches the bar: in the play scene, with a visible bar. */
    predicate Reacts()
      reads this
    {
      inPlayScene && barPresent && barVisible
    }

    /** The bar's CheckRecacheEntries: a dirty bar rebuilds its entries and is clean again. */
    method CheckRecacheEntries()
      modifies this
      ensures recaches == old(recaches) + if old(entriesDirty) then 1 else 0
      ensures !entriesDirty
      ensures inPlayScene == old(inPlayScene) && barPresent == old(barPresent) && barVisible == old(barVisible)
    {
      if entriesDirty {
        recaches := recaches + 1;
        entriesDirty := false;
      }
    }
  }

  /** A value as the Scribe system stores it. */
  datatype Saved = FloatSaved(f: real) | IntSaved(i: int) | BoolSaved(b: bool)

  predicate SameKind(a: Saved, b: Saved)
  {
    (a.FloatSaved? && b.FloatSaved?) || (a.IntSaved? && b.IntSaved?) || (a.BoolSaved? && b.BoolSaved?)
  }

  /** The saved settings, by name. */
  type Record = map<string, Saved>

  /** What the Scribe system is doing while ExposeData runs. */
  datatype ScribeMode = Saving | LoadingVars(record: Record) | Inactive

  /**
   * Scribe_Values.Look on one value: when saving the value is kept (and
   * written, see Written); when loading it is replaced by the saved one, or
   * by the fallback if there is no saved value of its kind; otherwise it is kept.
   */
  function Look(mode: ScribeMode, name: string, current: Saved, fallback: Saved): (r: Saved)
    ensures SameKind(current, fallback) ==> SameKind(r, fallback)
    ensures !mode.LoadingVars? ==> r == current
    ensures mode.LoadingVars? ==> r == Loaded(mode.record, name, fallback)
  {
    match mode
    case LoadingVars(record) => Loaded(record, name, fallback)
    case _ => current
  }

  /** The value loaded from record under name: the saved one if it has the fallback's kind, else the fallback. */
  function Loaded(record: Record, name: string, fallback: Saved): (r: Saved)
    ensures SameKind(r, fallback)
    ensures name !in record ==> r == fallback
  {
    if name in record && SameKind(record[name], fallback) then record[name] else fallback
  }

  /** Scribe_Values.Look when saving adds the value to the record unless it equals the fallback. */
  function Written(mode: ScribeMode, out: Record, name: string, current: Saved, fallback: Saved): (r: Record)
    ensures !mode.Saving? || current == fallback ==> r == out
    ensures mode.Saving? && current != fallback ==> r == out[name := current]
  {
    if mode.Saving? && current != fallback then out[name := current] else out
  }

  /** The eight settings, by the name they are saved under. */
  datatype Key = OffsetX | OffsetY | BaseScale | ColonistsPerRow | MaxNumberOfRows | MarginX | MarginY | HideBackground

  /** `nameof` the setting's property: the name in the saved record. */
  function Name(key: Key): string
  {
    match key
    case OffsetX => "OffsetX"
    case OffsetY => "OffsetY"
    case BaseScale => "BaseScale"
    case ColonistsPerRow => "ColonistsPerRow"
    case MaxNumberOfRows => "MaxNumberOfRows"
    case MarginX => "MarginX"
    case MarginY => "MarginY"
    case HideBackground => "HideBackground"
  }

  /** The settings in the order ExposeData and the settings window visit them. */
  const Order: seq<Key> := [OffsetX, OffsetY, BaseScale, ColonistsPerRow, MaxNumberOfRows, MarginX, MarginY, HideBackground]

  /** One setting, as the Scribe system stores it. */
  function Field(v: SettingsValues, key: Key): Saved
  {
    match key
    case OffsetX => FloatSaved(v.offsetX)
    case OffsetY => FloatSaved(v.offsetY)
    case BaseScale => FloatSaved(v.baseScale)
    case ColonistsPerRow => IntSaved(v.colonistsPerRow)
    case MaxNumberOfRows => IntSaved(v.maxNumberOfRows)
    case MarginX => FloatSaved(v.marginX)
    case MarginY => FloatSaved(v.marginY)
    case HideBackground => BoolSaved(v.hideBackground)
  }

  /** v with one setting replaced by x, a value of the setting's kind; the others are kept. */
  function WithField(v: SettingsValues, key: Key, x: Saved): SettingsValues
    requires SameKind(x, Field(v, key))
  {
    match key
    case OffsetX => v.(offsetX := x.f)
    case OffsetY => v.(offsetY := x.f)
    case BaseScale => v.(baseScale := x.f)
    case ColonistsPerRow => v.(colonistsPerRow := x.i)
    case MaxNumberOfRows => v.(maxNumberOfRows := x.i)
    case MarginX => v.(marginX := x.f)
    case MarginY => v.(marginY := x.f)
    case HideBackground => v.(hideBackground := x.b)
  }

  /** WithField replaces exactly the one setting. */
  lemma WithFieldFields(v: SettingsValues, key: Key, x: Saved)
    requires SameKind(x, Field(v, key))
    ensures Field(WithField(v, key, x), key) == x
    ensures forall other :: other != key ==> Field(WithField(v, key, x), other) == Field(v, other)
  {
  }

  /** Two settings values with the same eight settings are the same. */
  lemma FieldsDetermine(a: SettingsValues, b: SettingsValues)
    requires forall key :: Field(a, key) == Field(b, key)
    ensures a == b
  {
    assert Field(a, OffsetX) == Field(b, OffsetX) && Field(a, OffsetY) == Field(b, OffsetY);
    assert Field(a, BaseScale) == Field(b, BaseScale) && Field(a, ColonistsPerRow) == Field(b, ColonistsPerRow);
    assert Field(a, MaxNumberOfRows) == Field(b, MaxNumberOfRows) && Field(a, MarginX) == Field(b, MarginX);
    assert Field(a, MarginY) == Field(b, MarginY) && Field(a, HideBackground) == Field(b, HideBackground);
  }

  /** 1 if a and b differ in the setting key, else 0. */
  function Diff(a: SettingsValues, b: SettingsValues, key: Key): nat
  {
    if Field(a, key) != Field(b, key) then 1 else 0
  }

  /** How many of the eight settings differ between a and b. */
  function ChangedCount(a: SettingsValues, b: SettingsValues): (n: nat)
    ensures n == 0 <==> a == b
  {
    Diff(a, b, OffsetX) + Diff(a, b, OffsetY) + Diff(a, b, BaseScale) + Diff(a, b, ColonistsPerRow)
    + Diff(a, b, MaxNumberOfRows) + Diff(a, b, MarginX) + Diff(a, b, MarginY) + Diff(a, b, HideBackground)
  }

  /**
   * Progress through a run of setter calls: the settings so far, the record
   * written so far, and how many calls changed their setting (each of which
   * ran ApplyChanges).
   */
  datatype Progress = Progress(values: SettingsValues, written: Record, changes: nat)

  /** One setter call: key is assigned x. */
  function Assign(p: Progress, key: Key, x: Saved): (r: Progress)
    requires SameKind(x, Field(p.values, key))
  {
    Progress(WithField(p.values, key, x), p.written, p.changes + if x != Field(p.values, key) then 1 else 0)
  }

  /** Assigning a setting that still holds its value in v0 counts one change against v0 exactly when it changes it. */
  lemma AssignCount(v0: SettingsValues, p: Progress, key: Key, x: Saved)
    requires SameKind(x, Field(p.values, key))
    requires p.changes == ChangedCount(v0, p.values) && Field(p.values, key) == Field(v0, key)
    ensures Assign(p, key, x).changes == ChangedCount(v0, Assign(p, key, x).values)
  {
    var q := WithField(p.values, key, x);
    WithFieldFields(p.values, key, x);
    forall k
      ensures Diff(v0, q, k) == if k == key then (if x != Field(p.values, key) then 1 else 0) else Diff(v0, p.values, k)
    {
    }
  }

  /** The settings of keys are pairwise different. */
  predicate Distinct(keys: seq<Key>)
  {
    forall i, j :: 0 <= i < j < |keys| ==> keys[i] != keys[j]
  }

  // ----- ExposeData -----

  /** One Look and write-back: the setting goes through Look under its name with its default as the fallback. */
  function ExposeStep(mode: ScribeMode, p: Progress, key: Key): (r: Progress)
  {
    var current := Field(p.values, key);
    var fallback := Field(Defaults, key);
    var x := Look(mode, Name(key), current, fallback);
    Assign(p, key, x).(written := Written(mode, p.written, Name(key), current, fallback))
  }

  /** ExposeStep for each of keys in turn. */
  function ExposeAll(mode: ScribeMode, p: Progress, keys: seq<Key>): Progress
  {
    if keys == [] then p else ExposeStep(mode, ExposeAll(mode, p, keys[..|keys| - 1]), keys[|keys| - 1])
  }

  /** The record a save produces: every setting that differs from its default, under its name. */
  function SavedRecord(v: SettingsValues): Record
  {
    ExposeAll(Saving, Progress(v, map[], 0), Order).written
  }

  /** What loading record does to the settings: each one takes its saved value, or its default if none was saved. */
  function LoadedValues(record: Record): (r: SettingsValues)
    ensures forall key :: Field(r, key) == Loaded(record, Name(key), Field(Defaults, key))
  {
    SettingsValues(
      Loaded(record, Name(OffsetX), Field(Defaults, OffsetX)).f,
      Loaded(record, Name(OffsetY), Field(Defaults, OffsetY)).f,
      Loaded(record, Name(BaseScale), Field(Defaults, BaseScale)).f,
      Loaded(record, Name(ColonistsPerRow), Field(Defaults, ColonistsPerRow)).i,
      Loaded(record, Name(MaxNumberOfRows), Field(Defaults, MaxNumberOfRows)).i,
      Loaded(record, Name(MarginX), Field(Defaults, MarginX)).f,
      Loaded(record, Name(MarginY), Field(Defaults, MarginY)).f,
      Loaded(record, Name(HideBackground), Field(Defaults, HideBackground)).b)
  }

  // ----- The settings window -----

  /** What the user does to the window's controls in one frame: the seven numeric rows, then the checkbox. */
  datatype WindowInput = WindowInput(numeric: seq<ControlsBuilder.NumericInput>, checkboxAfter: bool, checkboxReset: bool)

  function ToSaved(n: ControlsBuilder.NumValue): (s: Saved)
    ensures !s.BoolSaved?
  {
    match n
    case FloatValue(f) => FloatSaved(f)
    case IntValue(i) => IntSaved(i)
  }

  /** A numeric setting as the numeric row edits it; the reverse of ToSaved. */
  function ToNum(s: Saved): (n: ControlsBuilder.NumValue)
    requires !s.BoolSaved?
    ensures ToSaved(n) == s
  {
    match s
    case FloatSaved(f) => ControlsBuilder.FloatValue(f)
    case IntSaved(i) => ControlsBuilder.IntValue(i)
  }

  /** The position of a setting in Order, which is also its row in the window. */
  function Position(key: Key): (i: nat)
    ensures i < 8 && Order[i] == key && (i == 7 <==> key == HideBackground)
  {
    match key
    case OffsetX => 0
    case OffsetY => 1
    case BaseScale => 2
    case ColonistsPerRow => 3
    case MaxNumberOfRows => 4
    case MarginX => 5
    case MarginY => 6
    case HideBackground => 7
  }

  /** The numeric rows are, in order, offset X and Y, base scale, colonists per row, rows, margin X and Y. */
  predicate WellTyped(input: WindowInput)
  {
    && |input.numeric| == 7
    && forall i :: 0 <= i < 7 ==> SameKind(ToSaved(input.numeric[i].edited), Field(Defaults, Order[i]))
  }

  /** The value a row hands to its setter: the widget's value, unless the reset button restored the default. */
  function RowValue(v: SettingsValues, key: Key, input: WindowInput): (x: Saved)
    requires WellTyped(input)
    ensures SameKind(x, Field(v, key))
  {
    var current := Field(v, key);
    var default := Field(Defaults, key);
    var modified := current != default;
    if key == HideBackground then
      (if modified && input.checkboxReset then default else BoolSaved(input.checkboxAfter))
    else
      var row := input.numeric[Position(key)];
      if modified && row.resetClicked then default else ToSaved(row.edited)
  }

  /** The first n rows of the window in turn, each assigning its setting. */
  function RowsUpTo(p: Progress, n: nat, input: WindowInput): Progress
    requires n <= 8 && WellTyped(input)
  {
    if n == 0 then p
    else
      var q := RowsUpTo(p, n - 1, input);
      Assign(q, Order[n - 1], RowValue(q.values, Order[n - 1], input))
  }

  function Min(a: nat, b: nat): nat
  {
    if a < b then a else b
  }

  /** The number of rows laid out when the control of row throwsAt throws (8 or more: none throws). */
  function RowsDone(throwsAt: nat): (n: nat)
    ensures n <= 8 && (n < 8 <==> throwsAt < 8)
  {
    Min(throwsAt, 8)
  }

  /** The numeric row of key restores the default: its setting was modified and its reset button clicked. */
  predicate ResetsBuffer(v: SettingsValues, key: Key, input: WindowInput)
    requires WellTyped(input)
  {
    key != HideBackground && Field(v, key) != Field(Defaults, key) && input.numeric[Position(key)].resetClicked
  }

  class ColonistBarAdjusterSettings {
    var offsetX: real
    var offsetY: real
    var baseScale: real
    var colonistsPerRow: int
    var maxNumberOfRows: int
    var marginX: real
    var marginY: real
    var hideBackground: bool

    function Values(): SettingsValues
      reads this
    {
      SettingsValues(offsetX, offsetY, baseScale, colonistsPerRow, maxNumberOfRows, marginX, marginY, hideBackground)
    }

    /** A new settings object holds the defaults. */
    constructor()
      ensures Values() == Defaults
    {
      offsetX := DefaultOffsetX;
      offsetY := DefaultOffsetY;
      baseScale := DefaultBaseScale;
      colonistsPerRow := DefaultColonistsPerRow;
      maxNumberOfRows := DefaultMaxNumberOfRows;
      marginX := DefaultMarginX;
      marginY := DefaultMarginY;
      hideBackground := DefaultHideBackground;
    }

    /** Asks a visible colonist bar, in the play scene, to rebuild its entries. */
    method ApplyChanges(host: Host)
      modifies host
      ensures host.recaches == old(host.recaches) + if old(host.Reacts()) then 1 else 0
      ensures host.entriesDirty == (if old(host.Reacts()) then false else old(host.entriesDirty))
      ensures host.inPlayScene == old(host.inPlayScene) && host.barPresent == old(host.barPresent)
      ensures host.barVisible == old(host.barVisible)
    {
      if !host.inPlayScene {
        return;
      }
      if host.barPresent && host.barVisible {
        host.entriesDirty := true;
        host.CheckRecacheEntries();
      }
    }

    /** The OffsetX setter: through Util.SetValue, with ApplyChanges as the callback. */
    method SetOffsetX(value: real, host: Host)
      modifies this, host
      ensures Values() == old(Values()).(offsetX := value)
      ensures host.recaches == old(host.recaches) + if old(offsetX) != value && old(host.Reacts()) then 1 else 0
      ensures host.Reacts() == old(host.Reacts())
      ensures host.entriesDirty == (if old(offsetX) != value && old(host.Reacts()) then false else old(host.entriesDirty))
      ensures host.inPlayScene == old(host.inPlayScene) && host.barPresent == old(host.barPresent)
      ensures host.barVisible == old(host.barVisible)
    {
      var stored, invoked := Util.SetValue(offsetX, value, true);
      offsetX := stored;
      if invoked.Some? {
        ApplyChanges(host);
      }
    }

    method SetOffsetY(value: real, host: Host)
      modifies this, host
      ensures Values() == old(Values()).(offsetY := value)
      ensures host.recaches == old(host.recaches) + if old(offsetY) != value && old(host.Reacts()) then 1 else 0
      ensures host.Reacts() == old(host.Reacts())
      ensures host.entriesDirty == (if old(offsetY) != value && old(host.Reacts()) then false else old(host.entriesDirty))
      ensures host.inPlayScene == old(host.inPlayScene) && host.barPresent == old(host.barPresent)
      ensures host.barVisible == old(host.barVisible)
    {
      var stored, invoked := Util.SetValue(offsetY, value, true);
      offsetY := stored;
      if invoked.Some? {
        ApplyChanges(host);
      }
    }

    method SetBaseScale(value: real, host: Host)
      modifies this, host
      ensures Values() == old(Values()).(baseScale := value)
      ensures host.recaches == old(host.recaches) + if old(baseScale) != value && old(host.Reacts()) then 1 else 0
      ensures host.Reacts() == old(host.Reacts())
      ensures host.entriesDirty == (if old(baseScale) != value && old(host.Reacts()) then false else old(host.entriesDirty))
      ensures host.inPlayScene == old(host.inPlayScene) && host.barPresent == old(host.barPresent)
      ensures host.barVisible == old(host.barVisible)
    {
      var stored, invoked := Util.SetValue(baseScale, value, true);
      baseScale := stored;
      if invoked.Some? {
        ApplyChanges(host);
      }
    }

    method SetColonistsPerRow(value: int, host: Host)
      modifies this, host
      ensures Values() == old(Values()).(colonistsPerRow := value)
      ensures host.recaches == old(host.recaches) + if old(colonistsPerRow) != value && old(host.Reacts()) then 1 else 0
      ensures host.Reacts() == old(host.Reacts())
      ensures host.entriesDirty == (if old(colonistsPerRow) != value && old(host.Reacts()) then false else old(host.entriesDirty))
      ensures host.inPlayScene == old(host.inPlayScene) && host.barPresent == old(host.barPresent)
      ensures host.barVisible == old(host.barVisible)
    {
      var stored, invoked := Util.SetValue(colonistsPerRow, value, true);
      colonistsPerRow := stored;
      if invoked.Some? {
        ApplyChanges(host);
      }
    }

    method SetMaxNumberOfRows(value: int, host: Host)
      modifies this, host
      ensures Values() == old(Values()).(maxNumberOfRows := value)
      ensures host.recaches == old(host.recaches) + if old(maxNumberOfRows) != value && old(host.Reacts()) then 1 else 0
      ensures host.Reacts() == old(host.Reacts())
      ensures host.entriesDirty == (if old(maxNumberOfRows) != value && old(host.Reacts()) then false else old(host.entriesDirty))
      ensures host.inPlayScene == old(host.inPlayScene) && host.barPresent == old(host.barPresent)
      ensures host.barVisible == old(host.barVisible)
    {
      var stored, invoked := Util.SetValue(maxNumberOfRows, value, true);
      maxNumberOfRows := stored;
      if invoked.Some? {
        ApplyChanges(host);
      }
    }

    method SetMarginX(value: real, host: Host)
      modifies this, host
      ensures Values() == old(Values()).(marginX := value)
      ensures host.recaches == old(host.recaches) + if old(marginX) != value && old(host.Reacts()) then 1 else 0
      ensures host.Reacts() == old(host.Reacts())
      ensures host.entriesDirty == (if old(marginX) != value && old(host.Reacts()) then false else old(host.entriesDirty))
      ensures host.inPlayScene == old(host.inPlayScene) && host.barPresent == old(host.barPresent)
      ensures host.barVisible == old(host.barVisible)
    {
      var stored, invoked := Util.SetValue(marginX, value, true);
      marginX := stored;
      if invoked.Some? {
        ApplyChanges(host);
      }
    }

    method SetMarginY(value: real, host: Host)
      modifies this, host
      ensures Values() == old(Values()).(marginY := value)
      ensures host.recaches == old(host.recaches) + if old(marginY) != value && old(host.Reacts()) then 1 else 0
      ensures host.Reacts() == old(host.Reacts())
      ensures host.entriesDirty == (if old(marginY) != value && old(host.Reacts()) then false else old(host.entriesDirty))
      ensures host.inPlayScene == old(host.inPlayScene) && host.barPresent == old(host.barPresent)
      ensures host.barVisible == old(host.barVisible)
    {
      var stored, invoked := Util.SetValue(marginY, value, true);
      marginY := stored;
      if invoked.Some? {
        ApplyChanges(host);
      }
    }

    method SetHideBackground(value: bool, host: Host)
      modifies this, host
      ensures Values() == old(Values()).(hideBackground := value)
      ensures host.recaches == old(host.recaches) + if old(hideBackground) != value && old(host.Reacts()) then 1 else 0
      ensures host.Reacts() == old(host.Reacts())
      ensures host.entriesDirty == (if old(hideBackground) != value && old(host.Reacts()) then false else old(host.entriesDirty))
      ensures host.inPlayScene == old(host.inPlayScene) && host.barPresent == old(host.barPresent)
      ensures host.barVisible == old(host.barVisible)
    {
      var stored, invoked := Util.SetValue(hideBackground, value, true);
      hideBackground := stored;
      if invoked.Some? {
        ApplyChanges(host);
      }
    }

    /** The setter of key, given a value of the setting's kind. */
    method SetSetting(key: Key, x: Saved, host: Host)
      requires SameKind(x, Field(Values(), key))
      modifies this, host
      ensures Values() == WithField(old(Values()), key, x)
      ensures host.recaches == old(host.recaches) + if x != old(Field(Values(), key)) && old(host.Reacts()) then 1 else 0
      ensures host.Reacts() == old(host.Reacts())
      ensures host.entriesDirty == (if x != old(Field(Values(), key)) && old(host.Reacts()) then false else old(host.entriesDirty))
      ensures host.inPlayScene == old(host.inPlayScene) && host.barPresent == old(host.barPresent)
      ensures host.barVisible == old(host.barVisible)
    {
      match key
      case OffsetX => SetOffsetX(x.f, host);
      case OffsetY => SetOffsetY(x.f, host);
      case BaseScale => SetBaseScale(x.f, host);
      case ColonistsPerRow => SetColonistsPerRow(x.i, host);
      case MaxNumberOfRows => SetMaxNumberOfRows(x.i, host);
      case MarginX => SetMarginX(x.f, host);
      case MarginY => SetMarginY(x.f, host);
      case HideBackground => SetHideBackground(x.b, host);
    }

    /**
     * One Look-and-write-back step of ExposeData: the setting is copied out,
     * passed to Scribe_Values.Look under its name with its default as the
     * fallback, and assigned back through its setter.
     */
    method ExposeValue(key: Key, mode: ScribeMode, host: Host, written: Record,
                       ghost p: Progress, ghost r0: nat, ghost reacts: bool)
      returns (written': Record, ghost p': Progress)
      requires p.values == Values() && p.written == written
      requires host.Reacts() == reacts && host.recaches == r0 + if reacts then p.changes else 0
      modifies this, host
      ensures p' == ExposeStep(mode, p, key) && p'.values == Values() && p'.written == written'
      ensures host.Reacts() == reacts && host.recaches == r0 + if reacts then p'.changes else 0
    {
      var fallback := Field(Defaults, key);
      var current := Field(Values(), key);
      var x := Look(mode, Name(key), current, fallback);
      written' := Written(mode, written, Name(key), current, fallback);
      p' := ExposeStep(mode, p, key);
      SetSetting(key, x, host);
    }

    /**
     * Saves or loads the settings: each setting in turn goes through
     * ExposeValue; the bar is then asked to recache once more,
     * unconditionally. Returns the record a save writes.
     */
    method ExposeData(mode: ScribeMode, host: Host) returns (written: Record)
      modifies this, host
      ensures ExposeAll(mode, Progress(old(Values()), map[], 0), Order).values == Values()
      ensures ExposeAll(mode, Progress(old(Values()), map[], 0), Order).written == written
      ensures host.recaches == old(host.recaches) + if old(host.Reacts()) then ExposeAll(mode, Progress(old(Values()), map[], 0), Order).changes + 1 else 0
    {
      ghost var p0 := Progress(Values(), map[], 0);
      ghost var r0 := host.recaches;
      ghost var reacts := host.Reacts();
      written := map[];
      ghost var p1;
      written, p1 := ExposeValue(OffsetX, mode, host, written, p0, r0, reacts);
      ghost var p2;
      written, p2 := ExposeValue(OffsetY, mode, host, written, p1, r0, reacts);
      ghost var p3;
      written, p3 := ExposeValue(BaseScale, mode, host, written, p2, r0, reacts);
      ghost var p4;
      written, p4 := ExposeValue(ColonistsPerRow, mode, host, written, p3, r0, reacts);
      ghost var p5;
      written, p5 := ExposeValue(MaxNumberOfRows, mode, host, written, p4, r0, reacts);
      ghost var p6;
      written, p6 := ExposeValue(MarginX, mode, host, written, p5, r0, reacts);
      ghost var p7;
      written, p7 := ExposeValue(MarginY, mode, host, written, p6, r0, reacts);
      ghost var p8;
      written, p8 := ExposeValue(HideBackground, mode, host, written, p7, r0, reacts);
      ExposeInOrder(mode, p0, p1, p2, p3, p4, p5, p6, p7, p8);
      ApplyChanges(host);
    }

    /**
     * Row k of the settings window: the setting's control, laid out at
     * offsetY with its default, then the setter with what the control returned.
     * Row throwsAt stands for a control that throws: once one has thrown
     * (`threw`), the rest of the rows do not run.
     */
    method Row(cb: ControlsBuilder.Builder, offsetY: real, width: real, k: nat, input: WindowInput, host: Host,
               throwsAt: nat, threw: bool, ghost p0: Progress, ghost r0: nat, ghost reacts: bool)
      returns (offsetY': real, threw': bool)
      requires WellTyped(input) && k < 8 && (threw <==> throwsAt < k)
      requires offsetY == ControlsBuilder.SettingsRowHeight * Min(throwsAt, k) as real
      requires Shown(Values(), host, p0, Min(throwsAt, k), input, r0, reacts)
      modifies this, host, cb, cb.valueBuffers.Values
      ensures threw' <==> throwsAt < k + 1
      ensures offsetY' == ControlsBuilder.SettingsRowHeight * Min(throwsAt, k + 1) as real
      ensures Shown(Values(), host, p0, Min(throwsAt, k + 1), input, r0, reacts)
      ensures cb.settingsViewHeight == old(cb.settingsViewHeight)
      ensures forall b :: b in cb.valueBuffers.Values ==> b in old(cb.valueBuffers.Values) || fresh(b)
    {
      if threw || throwsAt == k {
        return offsetY, true;
      }
      threw' := false;
      if k == 7 {
        var result, highlighted;
        offsetY', result, highlighted := cb.CreateCheckbox(offsetY, width, hideBackground, DefaultHideBackground,
                                                           input.checkboxAfter, input.checkboxReset);
        ghost var p := RowsUpTo(p0, k, input);
        assert RowsUpTo(p0, k + 1, input) == Assign(p, HideBackground, RowValue(p.values, HideBackground, input));
        SetSetting(HideBackground, BoolSaved(result), host);
      } else {
        offsetY' := NumericRow(cb, offsetY, width, k, input, host, p0, r0, reacts);
      }
    }

    /**
     * A numeric row k of the window, when no row before it has thrown. Its
     * reset button, clicked on a modified value, forgets the row's buffer;
     * otherwise the row's key is cached. No other key changes.
     */
    method NumericRow(cb: ControlsBuilder.Builder, offsetY: real, width: real, k: nat, input: WindowInput, host: Host,
                      ghost p0: Progress, ghost r0: nat, ghost reacts: bool)
      returns (offsetY': real)
      requires WellTyped(input) && k < 7
      requires Shown(Values(), host, p0, k, input, r0, reacts)
      modifies this, host, cb, cb.valueBuffers.Values
      ensures offsetY' == offsetY + ControlsBuilder.SettingsRowHeight
      ensures Shown(Values(), host, p0, k + 1, input, r0, reacts)
      ensures Name(Order[k]) in cb.valueBuffers <==> !ResetsBuffer(old(Values()), Order[k], input)
      ensures cb.valueBuffers - {Name(Order[k])} == old(cb.valueBuffers) - {Name(Order[k])}
      ensures cb.settingsViewHeight == old(cb.settingsViewHeight)
      ensures forall b :: b in cb.valueBuffers.Values ==> b in old(cb.valueBuffers.Values) || fresh(b)
    {
      var key := Order[k];
      ghost var p := RowsUpTo(p0, k, input);
      assert RowsUpTo(p0, k + 1, input) == Assign(p, key, RowValue(p.values, key, input));
      var row := input.numeric[Position(key)];
      var value := ToNum(Field(Values(), key));
      var result, highlighted;
      offsetY', result, highlighted := cb.CreateNumeric(offsetY, width, value, ToNum(Field(Defaults, key)), Name(key), row);
      SetSetting(key, ToSaved(result), host);
    }

    /** The state after the first n rows: the settings and the recaches they caused. */
    ghost predicate Shown(v: SettingsValues, host: Host, p0: Progress, n: nat, input: WindowInput, r0: nat, reacts: bool)
      requires n <= 8 && WellTyped(input)
      reads host
    {
      && v == RowsUpTo(p0, n, input).values
      && host.Reacts() == reacts && host.recaches == r0 + if reacts then RowsUpTo(p0, n, input).changes else 0
    }

    /**
     * The settings window: one row per setting, from offset 0, in Order.
     * Row throwsAt stands for a control that throws (8 or more: none does);
     * the rows before it have taken effect, and ControlsBuilder.End runs in
     * any case, sizing the view to the rows laid out.
     */
    method DoSettingsWindowContents(cb: ControlsBuilder.Builder, inRectWidth: real, input: WindowInput,
                                    throwsAt: nat, host: Host)
      returns (threw: bool)
      requires WellTyped(input)
      modifies this, host, cb, cb.valueBuffers.Values
      ensures threw <==> throwsAt < 8
      ensures cb.settingsViewHeight == ControlsBuilder.SettingsRowHeight * (RowsDone(throwsAt) as real + 1.0)
      ensures Values() == RowsUpTo(Progress(old(Values()), map[], 0), RowsDone(throwsAt), input).values
      ensures host.recaches == old(host.recaches) +
                               if old(host.Reacts()) then RowsUpTo(Progress(old(Values()), map[], 0), RowsDone(throwsAt), input).changes else 0
    {
      ghost var p0 := Progress(Values(), map[], 0);
      ghost var r0 := host.recaches;
      ghost var reacts := host.Reacts();
      var width := inRectWidth;
      var offsetY := 0.0;
      var _ := cb.Begin(inRectWidth);
      threw := false;
      // try
      offsetY, threw := Row(cb, offsetY, width, 0, input, host, throwsAt, threw, p0, r0, reacts);
      offsetY, threw := Row(cb, offsetY, width, 1, input, host, throwsAt, threw, p0, r0, reacts);
      offsetY, threw := Row(cb, offsetY, width, 2, input, host, throwsAt, threw, p0, r0, reacts);
      offsetY, threw := Row(cb, offsetY, width, 3, input, host, throwsAt, threw, p0, r0, reacts);
      offsetY, threw := Row(cb, offsetY, width, 4, input, host, throwsAt, threw, p0, r0, reacts);
      offsetY, threw := Row(cb, offsetY, width, 5, input, host, throwsAt, threw, p0, r0, reacts);
      offsetY, threw := Row(cb, offsetY, width, 6, input, host, throwsAt, threw, p0, r0, reacts);
      offsetY, threw := Row(cb, offsetY, width, 7, input, host, throwsAt, threw, p0, r0, reacts);
      // finally
      cb.End(offsetY);
    }
  }

  /** Order lists each setting once, and different settings are saved under different names. */
  lemma OrderFacts()
    ensures Order == [] + [OffsetX] + [OffsetY] + [BaseScale] + [ColonistsPerRow] + [MaxNumberOfRows] + [MarginX] + [MarginY] + [HideBackground]
    ensures Distinct(Order)
    ensures forall key :: key in Order
    ensures forall a, b :: Name(a) == Name(b) ==> a == b
  {
    forall key
      ensures key in Order
    {
      assert Order[Position(key)] == key;
    }
    forall a, b | Name(a) == Name(b)
      ensures a == b
    {
      var m, n := Name(a), Name(b);
      // The length, the first and the last letter tell the eight names apart.
      assert |m| == |n| && m[0] == n[0] && m[|m| - 1] == n[|n| - 1];
    }
  }

  /** ExposeAll over Order, one step after the other. */
  lemma ExposeInOrder(mode: ScribeMode, p0: Progress, p1: Progress, p2: Progress, p3: Progress, p4: Progress,
                       p5: Progress, p6: Progress, p7: Progress, p8: Progress)
    requires p1 == ExposeStep(mode, p0, OffsetX) && p2 == ExposeStep(mode, p1, OffsetY)
    requires p3 == ExposeStep(mode, p2, BaseScale) && p4 == ExposeStep(mode, p3, ColonistsPerRow)
    requires p5 == ExposeStep(mode, p4, MaxNumberOfRows) && p6 == ExposeStep(mode, p5, MarginX)
    requires p7 == ExposeStep(mode, p6, MarginY) && p8 == ExposeStep(mode, p7, HideBackground)
    ensures ExposeAll(mode, p0, Order) == p8
  {
    OrderFacts();
    ghost var k0: seq<Key> := [];
    ExposeAllSnoc(mode, p0, k0, OffsetX);
    ghost var k1 := k0 + [OffsetX];
    ExposeAllSnoc(mode, p0, k1, OffsetY);
    ghost var k2 := k1 + [OffsetY];
    ExposeAllSnoc(mode, p0, k2, BaseScale);
    ghost var k3 := k2 + [BaseScale];
    ExposeAllSnoc(mode, p0, k3, ColonistsPerRow);
    ghost var k4 := k3 + [ColonistsPerRow];
    ExposeAllSnoc(mode, p0, k4, MaxNumberOfRows);
    ghost var k5 := k4 + [MaxNumberOfRows];
    ExposeAllSnoc(mode, p0, k5, MarginX);
    ghost var k6 := k5 + [MarginX];
    ExposeAllSnoc(mode, p0, k6, MarginY);
    ghost var k7 := k6 + [MarginY];
    ExposeAllSnoc(mode, p0, k7, HideBackground);
    ghost var k8 := k7 + [HideBackground];
    assert k8 == Order;
  }

  lemma ExposeAllSnoc(mode: ScribeMode, p: Progress, keys: seq<Key>, key: Key)
    ensures ExposeAll(mode, p, keys + [key]) == ExposeStep(mode, ExposeAll(mode, p, keys), key)
  {
    assert (keys + [key])[..|keys|] == keys;
  }

  /** Over distinct settings, the changes ExposeAll counts are the settings it changed; the others are untouched. */
  lemma {:induction false} ExposeChanges(mode: ScribeMode, v: SettingsValues, keys: seq<Key>)
    requires Distinct(keys)
    ensures
      var p := ExposeAll(mode, Progress(v, map[], 0), keys);
      && p.changes == ChangedCount(v, p.values)
      && forall key :: key !in keys ==> Field(p.values, key) == Field(v, key)
  {
    if keys != [] {
      var init := keys[..|keys| - 1];
      var key := keys[|keys| - 1];
      ExposeChanges(mode, v, init);
      var q := ExposeAll(mode, Progress(v, map[], 0), init);
      assert forall i :: 0 <= i < |init| ==> init[i] == keys[i];
      var x := Look(mode, Name(key), Field(q.values, key), Field(Defaults, key));
      WithFieldFields(q.values, key, x);
      AssignCount(v, q, key, Look(mode, Name(key), Field(q.values, key), Field(Defaults, key)));
    }
  }

  /** Saving and an inactive Scribe leave the settings as they are and count no change. */
  lemma {:induction false} ExposeKeeps(mode: ScribeMode, p: Progress, keys: seq<Key>)
    requires !mode.LoadingVars?
    ensures ExposeAll(mode, p, keys).values == p.values && ExposeAll(mode, p, keys).changes == p.changes
    ensures mode.Inactive? ==> ExposeAll(mode, p, keys).written == p.written
  {
    if keys != [] {
      ExposeKeeps(mode, p, keys[..|keys| - 1]);
      KeepStep(mode, ExposeAll(mode, p, keys[..|keys| - 1]), keys[|keys| - 1]);
    }
  }

  /** One save or inactive step keeps the settings; a save writes the setting back. */
  lemma KeepStep(mode: ScribeMode, q: Progress, key: Key)
    requires !mode.LoadingVars?
    ensures ExposeStep(mode, q, key).values == q.values && ExposeStep(mode, q, key).changes == q.changes
    ensures ExposeStep(mode, q, key).written == Written(mode, q.written, Name(key), Field(q.values, key), Field(Defaults, key))
  {
    WithFieldFields(q.values, key, Field(q.values, key));
    FieldsDetermine(WithField(q.values, key, Field(q.values, key)), q.values);
  }

  /**
   * A save writes, under its name, exactly each setting of keys that differs
   * from its default, with its value; nothing else is written.
   */
  lemma {:induction false} SaveWrites(v: SettingsValues, keys: seq<Key>)
    ensures
      var w := ExposeAll(Saving, Progress(v, map[], 0), keys).written;
      && (forall key :: Name(key) in w <==> key in keys && Field(v, key) != Field(Defaults, key))
      && (forall key :: Name(key) in w ==> w[Name(key)] == Field(v, key))
      && (forall name :: name in w ==> exists key :: Name(key) == name)
  {
    if keys != [] {
      var init := keys[..|keys| - 1];
      var key := keys[|keys| - 1];
      SaveWrites(v, init);
      var q := ExposeAll(Saving, Progress(v, map[], 0), init);
      ExposeKeeps(Saving, Progress(v, map[], 0), init);
      KeepStep(Saving, q, key);
      var w := ExposeAll(Saving, Progress(v, map[], 0), keys).written;
      assert keys == init + [key];
      assert w == Written(Saving, q.written, Name(key), Field(v, key), Field(Defaults, key));
      forall other
        ensures Name(other) in w <==> other in keys && Field(v, other) != Field(Defaults, other)
        ensures Name(other) in w ==> w[Name(other)] == Field(v, other)
      {
        OrderFacts();
      }
    }
  }

  /** A load gives each setting of keys its loaded value and leaves the record and the other settings alone. */
  lemma {:induction false} LoadReads(record: Record, p: Progress, keys: seq<Key>)
    ensures ExposeAll(LoadingVars(record), p, keys).written == p.written
    ensures forall key :: Field(ExposeAll(LoadingVars(record), p, keys).values, key) ==
                          if key in keys then Loaded(record, Name(key), Field(Defaults, key)) else Field(p.values, key)
  {
    if keys != [] {
      var init := keys[..|keys| - 1];
      var key := keys[|keys| - 1];
      LoadReads(record, p, init);
      LoadStep(record, ExposeAll(LoadingVars(record), p, init), key);
      assert keys == init + [key];
    }
  }

  /** One load step replaces the one setting by its loaded value. */
  lemma LoadStep(record: Record, q: Progress, key: Key)
    ensures ExposeStep(LoadingVars(record), q, key).written == q.written
    ensures Field(ExposeStep(LoadingVars(record), q, key).values, key) == Loaded(record, Name(key), Field(Defaults, key))
    ensures forall other :: other != key ==> Field(ExposeStep(LoadingVars(record), q, key).values, other) == Field(q.values, other)
  {
    WithFieldFields(q.values, key, Loaded(record, Name(key), Field(Defaults, key)));
  }

  /** The saved record holds exactly the settings that differ from their defaults, each under its name. */
  lemma SavedRecordContents(v: SettingsValues)
    ensures forall key :: Name(key) in SavedRecord(v) <==> Field(v, key) != Field(Defaults, key)
    ensures forall key :: Name(key) in SavedRecord(v) ==> SavedRecord(v)[Name(key)] == Field(v, key)
    ensures forall name :: name in SavedRecord(v) ==> exists key :: Name(key) == name
  {
    SaveWrites(v, Order);
    OrderFacts();
  }

  /** Saving the defaults writes nothing. */
  lemma SavedDefaults()
    ensures SavedRecord(Defaults) == map[]
  {
    SavedRecordContents(Defaults);
  }

  /** Loading what was saved gives back the settings that were saved. */
  lemma SaveLoadRoundTrip(v: SettingsValues)
    ensures LoadedValues(SavedRecord(v)) == v
  {
    SavedRecordContents(v);
    forall key
      ensures Field(LoadedValues(SavedRecord(v)), key) == Field(v, key)
    {
      FieldKind(v, key);
    }
    FieldsDetermine(LoadedValues(SavedRecord(v)), v);
  }

  /** Every setting has its default's kind. */
  lemma FieldKind(v: SettingsValues, key: Key)
    ensures SameKind(Field(v, key), Field(Defaults, key))
  {
  }

  /**
   * ExposeData's effect on the settings in each mode: a load replaces them by
   * LoadedValues and counts one change per setting that differs; a save
   * and an inactive Scribe change nothing.
   */
  lemma ExposeModes(mode: ScribeMode, v: SettingsValues)
    ensures
      var r := ExposeAll(mode, Progress(v, map[], 0), Order);
      && r.changes == ChangedCount(v, r.values)
      && (mode.LoadingVars? ==> r.values == LoadedValues(mode.record) && r.written == map[])
      && (mode.Saving? ==> r.values == v && r.changes == 0 && r.written == SavedRecord(v))
      && (mode.Inactive? ==> r.values == v && r.changes == 0 && r.written == map[])
  {
    OrderFacts();
    ExposeChanges(mode, v, Order);
    var r := ExposeAll(mode, Progress(v, map[], 0), Order);
    if mode.LoadingVars? {
      LoadReads(mode.record, Progress(v, map[], 0), Order);
      FieldsDetermine(r.values, LoadedValues(mode.record));
    } else {
      ExposeKeeps(mode, Progress(v, map[], 0), Order);
    }
  }

  /** The first n rows set each of their settings to the row's value and leave the later settings alone. */
  lemma {:induction false} RowsFields(p: Progress, n: nat, input: WindowInput)
    requires n <= 8 && WellTyped(input)
    ensures forall key :: Field(RowsUpTo(p, n, input).values, key) ==
                          if Position(key) < n then RowValue(p.values, key, input) else Field(p.values, key)
  {
    if n > 0 {
      var key := Order[n - 1];
      assert Position(key) == n - 1;
      var q := RowsUpTo(p, n - 1, input);
      RowsFields(p, n - 1, input);
      RowValueOwnField(q.values, p.values, key, input);
      WithFieldFields(q.values, key, RowValue(q.values, key, input));
    }
  }

  /** A row's value depends on its own setting only. */
  lemma RowValueOwnField(v: SettingsValues, w: SettingsValues, key: Key, input: WindowInput)
    requires WellTyped(input) && Field(v, key) == Field(w, key)
    ensures RowValue(v, key, input) == RowValue(w, key, input)
  {
  }

  /** The rows count one change per setting they changed. */
  lemma {:induction false} RowsChanges(v: SettingsValues, n: nat, input: WindowInput)
    requires n <= 8 && WellTyped(input)
    ensures RowsUpTo(Progress(v, map[], 0), n, input).changes == ChangedCount(v, RowsUpTo(Progress(v, map[], 0), n, input).values)
  {
    if n > 0 {
      var key := Order[n - 1];
      assert Position(key) == n - 1;
      var q := RowsUpTo(Progress(v, map[], 0), n - 1, input);
      RowsChanges(v, n - 1, input);
      RowsFields(Progress(v, map[], 0), n - 1, input);
      AssignCount(v, q, key, RowValue(q.values, key, input));
    }
  }

  /** The user touched nothing: every numeric field hands back the setting's value and no reset was clicked. */
  predicate Idle(v: SettingsValues, input: WindowInput)
    requires WellTyped(input)
  {
    && (forall i :: 0 <= i < 7 ==> ToSaved(input.numeric[i].edited) == Field(v, Order[i]) && !input.numeric[i].resetClicked)
    && input.checkboxAfter == v.hideBackground && !input.checkboxReset
  }

  /** Every reset button was clicked and nothing else was edited. */
  predicate ResetAll(v: SettingsValues, input: WindowInput)
    requires WellTyped(input)
  {
    && (forall i :: 0 <= i < 7 ==> ToSaved(input.numeric[i].edited) == Field(v, Order[i]) && input.numeric[i].resetClicked)
    && input.checkboxAfter == v.hideBackground && input.checkboxReset
  }

  /** A frame in which the user touches nothing changes no setting and asks for no recache. */
  lemma IdleFrame(v: SettingsValues, input: WindowInput)
    requires WellTyped(input) && Idle(v, input)
    ensures RowsUpTo(Progress(v, map[], 0), 8, input).values == v
    ensures RowsUpTo(Progress(v, map[], 0), 8, input).changes == 0
  {
    var r := RowsUpTo(Progress(v, map[], 0), 8, input);
    RowsFields(Progress(v, map[], 0), 8, input);
    forall key
      ensures Field(r.values, key) == Field(v, key)
    {
      assert Order[Position(key)] == key;
    }
    FieldsDetermine(r.values, v);
    RowsChanges(v, 8, input);
  }

  /** Clicking every reset button restores all the defaults. */
  lemma ResetAllFrame(v: SettingsValues, input: WindowInput)
    requires WellTyped(input) && ResetAll(v, input)
    ensures RowsUpTo(Progress(v, map[], 0), 8, input).values == Defaults
    ensures RowsUpTo(Progress(v, map[], 0), 8, input).changes == ChangedCount(v, Defaults)
  {
    var r := RowsUpTo(Progress(v, map[], 0), 8, input);
    RowsFields(Progress(v, map[], 0), 8, input);
    forall key
      ensures Field(r.values, key) == Field(Defaults, key)
    {
      assert Order[Position(key)] == key;
    }
    FieldsDetermine(r.values, Defaults);
    RowsChanges(v, 8, input);
  }
}
