/**
 * The prefix of ColonistBarDrawLocsFinder.FindBestScale, which replaces the
 * game's own search for the colonist bar's scale. Starting from the base
 * scale and the configured number of colonists per row, it asks the game to
 * spread the row's slots over the groups of colonists; the attempt is
 * accepted when that succeeds and no group needs more rows than allowed.
 * Otherwise the scale shrinks by 5% and the colonists per row are worked out
 * again from the bar's width. The original method is always skipped.
 *
 * The game's side is a `Finder`: the colonist bar's entries (the group of
 * each), the number of entries per group, the slot distribution (an oracle
 * from the colonists per row to the slots of each group, or None when it
 * fails) and the bar's geometry.
 */
module ScalePatch {
  import opened Wrappers
  import AdjusterSettings

  /** Width of the gap between groups, in units of the scale. */
  const GroupGap: real := 25.0
  /** The factor the scale is multiplied by after a rejected attempt. */
  const Shrink: real := 0.95

  datatype Finder = Finder(
    entries: seq<nat>,
    entriesInGroup: seq<nat>,
    distribute: int -> Option<seq<int>>,
    groupsCount: int,
    maxBarWidth: real,
    baseWidth: real)

  /** Every entry's group has a count and a positive number of slots. */
  predicate GroupsValid(entries: seq<nat>, entriesInGroup: seq<nat>, slots: seq<int>)
  {
    forall i :: 0 <= i < |entries| ==> entries[i] < |entriesInGroup| && entries[i] < |slots| && slots[entries[i]] >= 1
  }

  /** Whatever the distribution hands back covers every entry's group. */
  ghost predicate ValidFinder(f: Finder)
  {
    forall m :: f.distribute(m).Some? ==> GroupsValid(f.entries, f.entriesInGroup, f.distribute(m).value)
  }

  /** The smallest q with a <= q * b: Mathf.CeilToInt(a / (float)b) on exact arithmetic. */
  function CeilDiv(a: nat, b: int): (q: nat)
    requires b >= 1
    ensures b * (q - 1) < a <= b * q
  {
    (a + b - 1) / b
  }

  /** The number of rows group g needs with its slots. */
  function RowCount(entriesInGroup: seq<nat>, slots: seq<int>, g: nat): nat
    requires g < |entriesInGroup| && g < |slots| && slots[g] >= 1
  {
    CeilDiv(entriesInGroup[g], slots[g])
  }

  /** No entry's group needs more than allowed rows. */
  predicate AllFit(entries: seq<nat>, entriesInGroup: seq<nat>, slots: seq<int>, allowed: int)
    requires GroupsValid(entries, entriesInGroup, slots)
  {
    forall i :: 0 <= i < |entries| ==> RowCount(entriesInGroup, slots, entries[i]) <= allowed
  }

  /** Every entry up to and including the first whose group needs too many rows needs only one row. */
  predicate ExaminedOneRow(entries: seq<nat>, entriesInGroup: seq<nat>, slots: seq<int>, allowed: int)
    requires GroupsValid(entries, entriesInGroup, slots)
  {
    forall i :: 0 <= i < |entries| && AllFit(entries[..i], entriesInGroup, slots, allowed) ==>
      RowCount(entriesInGroup, slots, entries[i]) <= 1
  }

  /**
   * The check of one attempt: it walks the entries and, each time the group
   * changes, computes the group's row count; more than one row clears
   * onlyOneRow, more than allowed rejects the attempt at once.
   */
  method CheckGroups(entries: seq<nat>, entriesInGroup: seq<nat>, slots: seq<int>, allowed: int)
    returns (fits: bool, onlyOneRow: bool)
    requires GroupsValid(entries, entriesInGroup, slots)
    ensures fits <==> AllFit(entries, entriesInGroup, slots, allowed)
    ensures onlyOneRow <==> ExaminedOneRow(entries, entriesInGroup, slots, allowed)
  {
    onlyOneRow := true;
    fits := true;
    var group := -1;
    for i := 0 to |entries|
      invariant group == if i == 0 then -1 else entries[i - 1]
      invariant AllFit(entries[..i], entriesInGroup, slots, allowed)
      invariant onlyOneRow <==> forall j :: 0 <= j < i ==> RowCount(entriesInGroup, slots, entries[j]) <= 1
    {
      assert entries[..i + 1] == entries[..i] + [entries[i]];
      if group != entries[i] {
        group := entries[i];
        var groupRowCount := CeilDiv(entriesInGroup[group], slots[group]);
        if groupRowCount > 1 {
          onlyOneRow := false;
        }
        if groupRowCount > allowed {
          fits := false;
          ExaminedUpTo(entries, entriesInGroup, slots, allowed, i);
          break;
        }
      }
    }
    if fits {
      assert entries[..|entries|] == entries;
      ExaminedAll(entries, entriesInGroup, slots, allowed);
    }
  }

  /** When entry i is the first whose group needs too many rows, the entries examined are those up to i. */
  lemma ExaminedUpTo(entries: seq<nat>, entriesInGroup: seq<nat>, slots: seq<int>, allowed: int, i: int)
    requires GroupsValid(entries, entriesInGroup, slots) && 0 <= i < |entries|
    requires AllFit(entries[..i], entriesInGroup, slots, allowed)
    requires RowCount(entriesInGroup, slots, entries[i]) > allowed
    ensures !AllFit(entries, entriesInGroup, slots, allowed)
    ensures ExaminedOneRow(entries, entriesInGroup, slots, allowed) <==>
            forall j :: 0 <= j <= i ==> RowCount(entriesInGroup, slots, entries[j]) <= 1
  {
    forall j | i < j < |entries|
      ensures !AllFit(entries[..j], entriesInGroup, slots, allowed)
    {
      assert entries[..j][i] == entries[i];
    }
    forall j | 0 <= j <= i
      ensures AllFit(entries[..j], entriesInGroup, slots, allowed)
    {
      assert forall k :: 0 <= k < j ==> entries[..j][k] == entries[..i][k];
    }
  }

  /** When every group fits, every entry is examined. */
  lemma ExaminedAll(entries: seq<nat>, entriesInGroup: seq<nat>, slots: seq<int>, allowed: int)
    requires GroupsValid(entries, entriesInGroup, slots)
    requires AllFit(entries, entriesInGroup, slots, allowed)
    ensures ExaminedOneRow(entries, entriesInGroup, slots, allowed) <==>
            forall j :: 0 <= j < |entries| ==> RowCount(entriesInGroup, slots, entries[j]) <= 1
  {
    forall j | 0 <= j < |entries|
      ensures AllFit(entries[..j], entriesInGroup, slots, allowed)
    {
      assert forall k :: 0 <= k < j ==> entries[..j][k] == entries[k];
    }
  }

  /** The scale of attempt k: the base scale shrunk k times. */
  function ScaleAt(s: AdjusterSettings.SettingsValues, k: nat): (r: real)
    ensures s.baseScale > 0.0 ==> r > 0.0
    ensures s.baseScale < 0.0 ==> r < 0.0
    ensures s.baseScale != 0.0 ==> r != 0.0
  {
    if k == 0 then s.baseScale else ScaleAt(s, k - 1) * Shrink
  }

  /** The settings and the bar's geometry give every attempt a well-defined row width. */
  predicate Sizable(s: AdjusterSettings.SettingsValues, f: Finder)
  {
    s.baseScale != 0.0 && f.baseWidth + s.marginX != 0.0
  }

  /**
   * The colonists per row of attempt k: the configured number first, then as
   * many colonists, each (BaseSize.x + MarginX) * scale wide, as fit in the
   * bar's width less the gaps between the groups (rounded down).
   */
  function PerRowAt(s: AdjusterSettings.SettingsValues, f: Finder, k: nat): int
    requires Sizable(s, f)
  {
    if k == 0 then s.colonistsPerRow else RowCapacity(s, f, ScaleAt(s, k))
  }

  /**
   * Mathf.FloorToInt(totalWidth / widthPerColonist) at the given scale: the
   * largest number of colonists whose widths fit in the bar's width less the
   * gaps between the groups.
   */
  function RowCapacity(s: AdjusterSettings.SettingsValues, f: Finder, scale: real): (n: int)
    requires f.baseWidth + s.marginX != 0.0 && scale != 0.0
    ensures f.baseWidth + s.marginX > 0.0 && scale > 0.0 ==>
      var widthPerColonist := (f.baseWidth + s.marginX) * scale;
      var totalWidth := f.maxBarWidth - (f.groupsCount as real - 1.0) * GroupGap * scale;
      n as real * widthPerColonist <= totalWidth < (n as real + 1.0) * widthPerColonist
  {
    var widthPerColonist := (f.baseWidth + s.marginX) * scale;
    var totalWidth := f.maxBarWidth - (f.groupsCount as real - 1.0) * GroupGap * scale;
    var x := totalWidth / widthPerColonist;
    assert widthPerColonist > 0.0 ==>
      x.Floor as real * widthPerColonist <= totalWidth < (x.Floor as real + 1.0) * widthPerColonist by {
      if widthPerColonist > 0.0 {
        FloorScaled(x.Floor as real, x, widthPerColonist, totalWidth);
      }
    }
    x.Floor
  }

  /** n is the floor of t / w, for a positive w: n widths fit in t, n + 1 do not. */
  lemma FloorScaled(n: real, x: real, w: real, t: real)
    requires w > 0.0 && x == t / w && n <= x < n + 1.0
    ensures n * w <= t < (n + 1.0) * w
  {
    assert x * w == t;
    var above := n + 1.0 - x;
    Positive(above, w);
    Distributes(n + 1.0, x, w);
    assert above * w == (n + 1.0) * w - x * w;
    assert (n + 1.0) * w > t;
    var below := x - n;
    Positive(below, w);
    Distributes(x, n, w);
    assert below * w == x * w - n * w;
    assert n * w <= t;
  }

  lemma Positive(d: real, w: real)
    requires d >= 0.0 && w > 0.0
    ensures d * w >= 0.0 && (d > 0.0 ==> d * w > 0.0)
  {
  }

  lemma Distributes(a: real, b: real, c: real)
    ensures (a - b) * c == a * c - b * c
  {
  }

  /** Attempt k is accepted: the slots are distributed and every group fits in the allowed rows. */
  predicate Accepted(s: AdjusterSettings.SettingsValues, f: Finder, k: nat)
    requires Sizable(s, f) && ValidFinder(f)
  {
    var d := f.distribute(PerRowAt(s, f, k));
    d.Some? && AllFit(f.entries, f.entriesInGroup, d.value, s.maxNumberOfRows)
  }

  /** onlyOneRow as attempt k leaves it. */
  predicate OnlyOneRowAt(s: AdjusterSettings.SettingsValues, f: Finder, k: nat)
    requires Sizable(s, f) && ValidFinder(f)
  {
    var d := f.distribute(PerRowAt(s, f, k));
    d.None? || ExaminedOneRow(f.entries, f.entriesInGroup, d.value, s.maxNumberOfRows)
  }

  /** The first accepted attempt from k on, before attempt fuel. */
  function FirstFit(s: AdjusterSettings.SettingsValues, f: Finder, k: nat, fuel: nat): (r: Option<nat>)
    requires Sizable(s, f) && ValidFinder(f)
    ensures r.Some? ==> k <= r.value < fuel && Accepted(s, f, r.value)
    ensures r.Some? ==> forall j :: k <= j < r.value ==> !Accepted(s, f, j)
    ensures r.None? ==> forall j :: k <= j < fuel ==> !Accepted(s, f, j)
    decreases fuel - k
  {
    if fuel <= k then None
    else if Accepted(s, f, k) then Some(k)
    else FirstFit(s, f, k + 1, fuel)
  }

  /**
   * The prefix. The source loops until an attempt is accepted; here at most
   * fuel attempts are made, and None means none of them was accepted. The
   * result, maxPerGlobalRow and onlyOneRow are those of the first accepted
   * attempt; false is returned so that the game's own method does not run.
   */
  method FindBestScalePrefix(s: AdjusterSettings.SettingsValues, f: Finder, fuel: nat)
    returns (result: Option<real>, onlyOneRow: bool, maxPerGlobalRow: int, runOriginal: bool)
    requires Sizable(s, f) && ValidFinder(f)
    ensures !runOriginal
    ensures result.Some? <==> FirstFit(s, f, 0, fuel).Some?
    ensures result.Some? ==>
      var k := FirstFit(s, f, 0, fuel).value;
      && result.value == ScaleAt(s, k)
      && maxPerGlobalRow == PerRowAt(s, f, k)
      && (onlyOneRow <==> OnlyOneRowAt(s, f, k))
    ensures result.None? ==> maxPerGlobalRow == PerRowAt(s, f, fuel)
  {
    var scale := s.baseScale;
    maxPerGlobalRow := s.colonistsPerRow;
    onlyOneRow := true;
    var k := 0;
    while k < fuel
      invariant k <= fuel
      invariant scale == ScaleAt(s, k) && maxPerGlobalRow == PerRowAt(s, f, k)
      invariant FirstFit(s, f, 0, fuel) == FirstFit(s, f, k, fuel)
    {
      onlyOneRow := true;
      var distributed := f.distribute(maxPerGlobalRow);
      if distributed.Some? {
        var fits, one := CheckGroups(f.entries, f.entriesInGroup, distributed.value, s.maxNumberOfRows);
        onlyOneRow := one;
        if fits {
          return Some(scale), onlyOneRow, maxPerGlobalRow, false;
        }
      }
      scale := scale * Shrink;
      maxPerGlobalRow := RowCapacity(s, f, scale);
      k := k + 1;
    }
    result := None;
    runOriginal := false;
  }

  /** An accepted first attempt returns the base scale and the configured colonists per row. */
  lemma FirstAttempt(s: AdjusterSettings.SettingsValues, f: Finder, fuel: nat)
    requires Sizable(s, f) && ValidFinder(f) && 0 < fuel && Accepted(s, f, 0)
    ensures FirstFit(s, f, 0, fuel) == Some(0)
    ensures ScaleAt(s, 0) == s.baseScale && PerRowAt(s, f, 0) == s.colonistsPerRow
  {
  }

  /** Every retry shrinks the scale: a later attempt has a strictly smaller positive scale. */
  lemma {:induction false} ScalesDecrease(s: AdjusterSettings.SettingsValues, j: nat, k: nat)
    requires s.baseScale > 0.0 && j < k
    ensures 0.0 < ScaleAt(s, k) < ScaleAt(s, j)
  {
    if j < k - 1 {
      ScalesDecrease(s, j, k - 1);
    }
  }

  /** More fuel does not change an attempt already found: the bound only matters when none is accepted. */
  lemma {:induction false} FuelIrrelevant(s: AdjusterSettings.SettingsValues, f: Finder, k: nat, fuel: nat, more: nat)
    requires Sizable(s, f) && ValidFinder(f) && fuel <= more
    requires FirstFit(s, f, k, fuel).Some?
    ensures FirstFit(s, f, k, more) == FirstFit(s, f, k, fuel)
    decreases fuel - k
  {
    if !Accepted(s, f, k) {
      FuelIrrelevant(s, f, k + 1, fuel, more);
    }
  }

  /** The scales tried depend on the base scale alone. */
  lemma {:induction false} SameScales(s: AdjusterSettings.SettingsValues, t: AdjusterSettings.SettingsValues, k: nat)
    requires s.baseScale == t.baseScale
    ensures ScaleAt(s, k) == ScaleAt(t, k)
  {
    if k > 0 {
      SameScales(s, t, k - 1);
    }
  }

  /**
   * A higher MaxNumberOfRows accepts every attempt a lower one accepts: the
   * colonists per row and their distribution do not depend on it.
   */
  lemma MoreRowsAccepted(s: AdjusterSettings.SettingsValues, t: AdjusterSettings.SettingsValues, f: Finder, k: nat)
    requires Sizable(s, f) && ValidFinder(f)
    requires t == s.(maxNumberOfRows := t.maxNumberOfRows) && s.maxNumberOfRows <= t.maxNumberOfRows
    ensures Accepted(s, f, k) ==> Accepted(t, f, k)
  {
    SameScales(s, t, k);
    assert PerRowAt(s, f, k) == PerRowAt(t, f, k);
  }

  /**
   * Lowering MaxNumberOfRows (to t's) never makes an earlier attempt accepted:
   * if the lower limit accepts some attempt, so does the higher one, and no later.
   */
  lemma {:induction false} FewerRowsLaterFit(s: AdjusterSettings.SettingsValues, t: AdjusterSettings.SettingsValues,
                                             f: Finder, fuel: nat)
    requires Sizable(s, f) && ValidFinder(f)
    requires t == s.(maxNumberOfRows := t.maxNumberOfRows) && t.maxNumberOfRows <= s.maxNumberOfRows
    ensures FirstFit(t, f, 0, fuel).Some? ==>
      FirstFit(s, f, 0, fuel).Some? && FirstFit(s, f, 0, fuel).value <= FirstFit(t, f, 0, fuel).value
  {
    if FirstFit(t, f, 0, fuel).Some? {
      MoreRowsAccepted(t, s, f, FirstFit(t, f, 0, fuel).value);
    }
  }

  /**
   * With a positive base scale, lowering MaxNumberOfRows never increases the
   * scale found: the bar can only get smaller.
   */
  lemma FewerRowsNoLargerScale(s: AdjusterSettings.SettingsValues, t: AdjusterSettings.SettingsValues,
                               f: Finder, fuel: nat)
    requires Sizable(s, f) && ValidFinder(f) && s.baseScale > 0.0
    requires t == s.(maxNumberOfRows := t.maxNumberOfRows) && t.maxNumberOfRows <= s.maxNumberOfRows
    ensures FirstFit(t, f, 0, fuel).Some? ==>
      FirstFit(s, f, 0, fuel).Some? && ScaleAt(t, FirstFit(t, f, 0, fuel).value) <= ScaleAt(s, FirstFit(s, f, 0, fuel).value)
  {
    FewerRowsLaterFit(s, t, f, fuel);
    if FirstFit(t, f, 0, fuel).Some? {
      var j, k := FirstFit(s, f, 0, fuel).value, FirstFit(t, f, 0, fuel).value;
      SameScales(s, t, k);
      if j < k {
        ScalesDecrease(s, j, k);
      }
    }
  }

  /** For an accepted attempt, onlyOneRow holds exactly when every group fits in a single row. */
  lemma AcceptedOnlyOneRow(s: AdjusterSettings.SettingsValues, f: Finder, k: nat)
    requires Sizable(s, f) && ValidFinder(f) && Accepted(s, f, k)
    ensures
      var slots := f.distribute(PerRowAt(s, f, k)).value;
      OnlyOneRowAt(s, f, k) <==> forall i :: 0 <= i < |f.entries| ==> RowCount(f.entriesInGroup, slots, f.entries[i]) <= 1
  {
    var slots := f.distribute(PerRowAt(s, f, k)).value;
    ExaminedAll(f.entries, f.entriesInGroup, slots, s.maxNumberOfRows);
  }
}
