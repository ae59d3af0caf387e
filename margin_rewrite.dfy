/**
 * The margin/offset rewrite stated position by position instead of turn by
 * turn: every default margin constant after a known `BaseSize.x|y` head
 * becomes a getter call (Rewritten), then four instructions are wrapped
 * around every `ldloc.1; newobj Vector2::.ctor` (ExpandFrom). The
 * transpiler's output equals this whenever no pattern sits in a slot its
 * index jumps over (Unshadowed); the Quirk lemmas show inputs where it does.
 */
module MarginRewrite {
  import opened Instructions
  import opened MarginPatch

  // ---------------------------------------------------------------------
  // Pattern sites in the original stream.
  // ---------------------------------------------------------------------

  /** `ldsflda BaseSize; ldfld Vector2.x|y` at h, with the room the loop's bound asks for. */
  predicate KnownHead(s: seq<Instruction>, h: int)
  {
    0 <= h < |s| - 3 && IsBaseSize(s[h]) && VectorXorY(s[h + 1]).Some?
    && MarginFor(VectorXorY(s[h + 1]).value).Some?
  }

  /** The component named by the known head at h: x or y. */
  function HeadComponent(s: seq<Instruction>, h: int): (c: MemberName)
    requires KnownHead(s, h)
    ensures c == X || c == Y
  {
    VectorXorY(s[h + 1]).value
  }

  /** Position k holds the default margin constant two places after a known head. */
  predicate MarginSite(s: seq<Instruction>, k: int)
  {
    2 <= k < |s| && KnownHead(s, k - 2) && IsMargin(s[k], MarginFor(HeadComponent(s, k - 2)).value.0)
  }

  /** `ldloc.1; newobj Vector2::.ctor` at q, with the room the loop's bound asks for. */
  predicate OffsetSite(s: seq<Instruction>, q: int)
  {
    0 <= q < |s| - 2 && s[q].opcode == Ldloc1 && IsVectorCtor(s[q + 1])
  }

  /**
   * No pattern lies in a slot the loop's index jumps over: the third slot of
   * a known margin head gets only the offset check, and the slot after an
   * offset site's `newobj` gets no check at all.
   */
  predicate Unshadowed(s: seq<Instruction>, getDrawLoc: bool)
  {
    && (forall h :: 0 <= h < |s| && KnownHead(s, h) ==> !KnownHead(s, h + 2))
    && (getDrawLoc ==> forall q :: 0 <= q < |s| && OffsetSite(s, q) ==> !KnownHead(s, q + 2) && !OffsetSite(s, q + 2))
  }

  // ---------------------------------------------------------------------
  // The margin rewrite.
  // ---------------------------------------------------------------------

  /** Every margin site turned into a call of its getter; every other instruction kept. */
  function Rewritten(s: seq<Instruction>): (t: seq<Instruction>)
    ensures |t| == |s|
  {
    seq(|s|, k requires 0 <= k < |s| =>
      if 2 <= k && KnownHead(s, k - 2) then Margined(s[k], HeadComponent(s, k - 2)) else s[k])
  }

  /**
   * The margin rewrite keeps the count and every label, touches only the
   * `ldc.r4 24` after `BaseSize.x` (now `call get_MarginX`) and the
   * `ldc.r4 32` after `BaseSize.y` (now `call get_MarginY`).
   */
  lemma {:induction false} RewrittenChanges(s: seq<Instruction>, k: int)
    requires 0 <= k < |s|
    ensures Rewritten(s)[k].labels == s[k].labels
    ensures Rewritten(s)[k] != s[k] <==> MarginSite(s, k)
    ensures MarginSite(s, k) && HeadComponent(s, k - 2) == X ==>
      s[k].operand == Float32(AdjusterSettings.DefaultMarginX)
      && Rewritten(s)[k].opcode == Call && Rewritten(s)[k].operand == GetMarginX
    ensures MarginSite(s, k) && HeadComponent(s, k - 2) == Y ==>
      s[k].operand == Float32(AdjusterSettings.DefaultMarginY)
      && Rewritten(s)[k].opcode == Call && Rewritten(s)[k].operand == GetMarginY
  {
  }

  /** The rewrite neither creates nor destroys an offset site (it only turns `ldc.r4` into `call`). */
  lemma {:induction false} OffsetSitesKept(s: seq<Instruction>, q: int)
    ensures OffsetSite(Rewritten(s), q) <==> OffsetSite(s, q)
  {
    if 0 <= q < |s| - 2 {
      RewrittenChanges(s, q);
      RewrittenChanges(s, q + 1);
    }
  }

  // ---------------------------------------------------------------------
  // The offset expansion.
  // ---------------------------------------------------------------------

  /** What the offset rewrite puts in place of position p of t. */
  function Piece(t: seq<Instruction>, p: nat, getDrawLoc: bool): seq<Instruction>
    requires p < |t|
  {
    if getDrawLoc && OffsetSite(t, p) then [OffsetXCall, AddOp, t[p], OffsetYCall, AddOp] else [t[p]]
  }

  /** The pieces of t from position p on. */
  function ExpandFrom(t: seq<Instruction>, p: nat, getDrawLoc: bool): seq<Instruction>
    requires p <= |t|
    decreases |t| - p
  {
    if p == |t| then [] else Piece(t, p, getDrawLoc) + ExpandFrom(t, p + 1, getDrawLoc)
  }

  /** The number of offset sites of t before position k (none unless the method is GetDrawLoc). */
  function SitesBelow(t: seq<Instruction>, k: nat, getDrawLoc: bool): (n: nat)
    requires k <= |t|
    ensures n <= k
    ensures !getDrawLoc ==> n == 0
  {
    if k == 0 then 0
    else SitesBelow(t, k - 1, getDrawLoc) + (if getDrawLoc && OffsetSite(t, k - 1) then 1 else 0)
  }

  /** Where the piece for position k starts in the expansion of t. */
  function Start(t: seq<Instruction>, k: nat, getDrawLoc: bool): nat
    requires k <= |t|
  {
    k + 4 * SitesBelow(t, k, getDrawLoc)
  }

  /** Where t[k] itself lands in the expansion: after `call get_OffsetX; add` at a site. */
  function Pos(t: seq<Instruction>, k: nat, getDrawLoc: bool): nat
    requires k < |t|
  {
    Start(t, k, getDrawLoc) + if getDrawLoc && OffsetSite(t, k) then 2 else 0
  }

  /** Four instructions are inserted per offset site; none without GetDrawLoc. */
  lemma {:induction false} ExpandLength(t: seq<Instruction>, p: nat, getDrawLoc: bool)
    requires p <= |t|
    ensures |ExpandFrom(t, p, getDrawLoc)| == Start(t, |t|, getDrawLoc) - Start(t, p, getDrawLoc)
    decreases |t| - p
  {
    if p < |t| {
      ExpandLength(t, p + 1, getDrawLoc);
    }
  }

  /** Without GetDrawLoc nothing is inserted. */
  lemma {:induction false} ExpandWithoutOffsets(t: seq<Instruction>, p: nat)
    requires p <= |t|
    ensures ExpandFrom(t, p, false) == t[p..]
    decreases |t| - p
  {
    if p < |t| {
      ExpandWithoutOffsets(t, p + 1);
      assert t[p..] == [t[p]] + t[p + 1..];
    }
  }

  /** The inserted instructions carry no labels, so the labels come out in the same order. */
  lemma {:induction false} ExpandLabels(t: seq<Instruction>, p: nat, getDrawLoc: bool)
    requires p <= |t|
    ensures AllLabels(ExpandFrom(t, p, getDrawLoc)) == AllLabels(t[p..])
    decreases |t| - p
  {
    if p < |t| {
      ExpandLabels(t, p + 1, getDrawLoc);
      AllLabelsAppend(Piece(t, p, getDrawLoc), ExpandFrom(t, p + 1, getDrawLoc));
      AllLabelsAppend([t[p]], t[p + 1..]);
      assert t[p..] == [t[p]] + t[p + 1..];
      PieceLabels(t, p, getDrawLoc);
    }
  }

  /** A piece carries the labels of its one original instruction. */
  lemma {:induction false} PieceLabels(t: seq<Instruction>, p: nat, getDrawLoc: bool)
    requires p < |t|
    ensures AllLabels(Piece(t, p, getDrawLoc)) == AllLabels([t[p]])
  {
    if getDrawLoc && OffsetSite(t, p) {
      AllLabelsAppend([OffsetXCall, AddOp], [t[p], OffsetYCall, AddOp]);
      AllLabelsAppend([t[p]], [OffsetYCall, AddOp]);
      assert Piece(t, p, getDrawLoc) == [OffsetXCall, AddOp] + ([t[p]] + [OffsetYCall, AddOp]);
    }
  }

  /** Start grows by one per position and by four more per site. */
  lemma {:induction false} StartMonotone(t: seq<Instruction>, j: nat, k: nat, getDrawLoc: bool)
    requires j <= k <= |t|
    ensures Start(t, j, getDrawLoc) + (k - j) <= Start(t, k, getDrawLoc)
    decreases k - j
  {
    if j < k {
      StartMonotone(t, j, k - 1, getDrawLoc);
    }
  }

  /** An offset site and the four instructions around it, as they sit in the expansion. */
  predicate Wrapped(e: seq<Instruction>, i: int, ins: Instruction)
  {
    2 <= i && i + 2 < |e|
    && e[i - 2] == OffsetXCall && e[i - 1] == AddOp && e[i] == ins && e[i + 1] == OffsetYCall && e[i + 2] == AddOp
  }

  /** Where t[k] lands in the expansion from p, counted from the start of that expansion. */
  predicate LandsAt(t: seq<Instruction>, p: nat, k: nat, getDrawLoc: bool)
    requires p <= k < |t|
  {
    var e := ExpandFrom(t, p, getDrawLoc);
    var i := Pos(t, k, getDrawLoc) - Start(t, p, getDrawLoc);
    && 0 <= i < |e| && e[i] == t[k]
    && (getDrawLoc && OffsetSite(t, k) ==> Wrapped(e, i, t[k]))
  }

  /** The piece for position k comes first in the expansion from k. */
  lemma {:induction false} LandsAtStart(t: seq<Instruction>, k: nat, getDrawLoc: bool)
    requires k < |t|
    ensures LandsAt(t, k, k, getDrawLoc)
  {
    var e := ExpandFrom(t, k, getDrawLoc);
    var piece := Piece(t, k, getDrawLoc);
    assert e == piece + ExpandFrom(t, k + 1, getDrawLoc);
    assert e[..|piece|] == piece;
  }

  /**
   * Every instruction of t lands at Pos in the expansion, in the original
   * order; an offset site sits between `call get_OffsetX; add` and
   * `call get_OffsetY; add`.
   */
  lemma {:induction false} ExpandPositions(t: seq<Instruction>, p: nat, k: nat, getDrawLoc: bool)
    requires p <= k < |t|
    ensures Start(t, p, getDrawLoc) <= Pos(t, k, getDrawLoc)
    ensures LandsAt(t, p, k, getDrawLoc)
    decreases k - p
  {
    if p == k {
      LandsAtStart(t, k, getDrawLoc);
    } else {
      ExpandPositions(t, p + 1, k, getDrawLoc);
      LandsAtShift(t, p, k, getDrawLoc);
    }
  }

  /** Landing in the expansion from p + 1 is landing |Piece(t, p)| places further in the expansion from p. */
  lemma {:induction false} LandsAtShift(t: seq<Instruction>, p: nat, k: nat, getDrawLoc: bool)
    requires p < k < |t| && Start(t, p + 1, getDrawLoc) <= Pos(t, k, getDrawLoc) && LandsAt(t, p + 1, k, getDrawLoc)
    ensures Start(t, p, getDrawLoc) <= Pos(t, k, getDrawLoc)
    ensures LandsAt(t, p, k, getDrawLoc)
  {
    var piece := Piece(t, p, getDrawLoc);
    var rest := ExpandFrom(t, p + 1, getDrawLoc);
    assert ExpandFrom(t, p, getDrawLoc) == piece + rest;
    assert |piece| == Start(t, p + 1, getDrawLoc) - Start(t, p, getDrawLoc);
    var i := Pos(t, k, getDrawLoc) - Start(t, p + 1, getDrawLoc);
    assert (piece + rest)[|piece| + i] == rest[i];
    if getDrawLoc && OffsetSite(t, k) {
      WrappedShift(piece, rest, i, t[k]);
    }
  }

  /** Putting a prefix in front moves a wrapped site by the prefix's length. */
  lemma {:induction false} WrappedShift(piece: seq<Instruction>, rest: seq<Instruction>, i: int, ins: Instruction)
    requires Wrapped(rest, i, ins)
    ensures Wrapped(piece + rest, |piece| + i, ins)
  {
    var e := piece + rest;
    assert e[|piece| + i - 2] == rest[i - 2] && e[|piece| + i - 1] == rest[i - 1];
    assert e[|piece| + i + 1] == rest[i + 1] && e[|piece| + i + 2] == rest[i + 2];
  }

  /** The expansion of the whole stream: its length and labels, and nothing inserted without GetDrawLoc. */
  lemma {:induction false} ExpandFacts(t: seq<Instruction>, getDrawLoc: bool)
    ensures |ExpandFrom(t, 0, getDrawLoc)| == |t| + 4 * SitesBelow(t, |t|, getDrawLoc)
    ensures AllLabels(ExpandFrom(t, 0, getDrawLoc)) == AllLabels(t)
    ensures !getDrawLoc ==> ExpandFrom(t, 0, getDrawLoc) == t
  {
    ExpandLength(t, 0, getDrawLoc);
    ExpandLabels(t, 0, getDrawLoc);
    assert t[0..] == t;
    if !getDrawLoc {
      ExpandWithoutOffsets(t, 0);
    }
  }

  /**
   * The original instructions keep their order in the expansion of the
   * whole stream, and each offset site is wrapped by the four insertions.
   */
  lemma {:induction false} ExpandPlaces(t: seq<Instruction>, getDrawLoc: bool)
    ensures forall j, k :: 0 <= j < k < |t| ==> Pos(t, j, getDrawLoc) < Pos(t, k, getDrawLoc)
    ensures forall k :: 0 <= k < |t| ==>
      var e := ExpandFrom(t, 0, getDrawLoc);
      && Pos(t, k, getDrawLoc) < |e| && e[Pos(t, k, getDrawLoc)] == t[k]
      && (getDrawLoc && OffsetSite(t, k) ==> Wrapped(e, Pos(t, k, getDrawLoc), t[k]))
  {
    forall j, k | 0 <= j < k < |t|
      ensures Pos(t, j, getDrawLoc) < Pos(t, k, getDrawLoc)
    {
      StartMonotone(t, j + 1, k, getDrawLoc);
    }
    var e := ExpandFrom(t, 0, getDrawLoc);
    forall k | 0 <= k < |t|
      ensures Pos(t, k, getDrawLoc) < |e| && e[Pos(t, k, getDrawLoc)] == t[k]
      ensures getDrawLoc && OffsetSite(t, k) ==> Wrapped(e, Pos(t, k, getDrawLoc), t[k])
    {
      ExpandPositions(t, 0, k, getDrawLoc);
      assert Start(t, 0, getDrawLoc) == 0;
    }
  }

  // ---------------------------------------------------------------------
  // The transpiler's output is the rewrite, when nothing is shadowed.
  // ---------------------------------------------------------------------

  /** The loop can begin a turn at p: p is not a slot that a turn begun earlier jumps over. */
  predicate TurnStart(s: seq<Instruction>, p: int, getDrawLoc: bool)
  {
    && !KnownHead(s, p - 1) && !KnownHead(s, p - 2)
    && !(getDrawLoc && (OffsetSite(s, p - 1) || OffsetSite(s, p - 2)))
  }

  /** Only an `ldc.r4` can be rewritten, and only at a margin site. */
  lemma {:induction false} Kept(s: seq<Instruction>, k: nat)
    requires k < |s| && (s[k].opcode != LdcR4 || !MarginSite(s, k))
    ensures Rewritten(s)[k] == s[k]
  {
  }

  /** The constant slot of a known head, rewritten as the turn at the head rewrites it. */
  lemma {:induction false} HeadSlot(s: seq<Instruction>, p: nat)
    requires KnownHead(s, p)
    ensures Rewritten(s)[p + 2] == Margined(s[p + 2], HeadComponent(s, p))
    ensures Rewritten(s)[p + 2] == s[p + 2] || Rewritten(s)[p + 2].opcode == Call
    ensures Rewritten(s)[p] == s[p] && Rewritten(s)[p + 1] == s[p + 1] && Rewritten(s)[p + 3] == s[p + 3]
  {
    Kept(s, p);
    Kept(s, p + 1);
    Kept(s, p + 3);
  }

  // What one turn of the loop emits, by the kind of position it starts on.

  /** At a known head whose constant slot is an offset site: the head, the wrapped slot, two copies. */
  lemma {:induction false} HeadSiteTurn(s: seq<Instruction>, p: nat, g: bool)
    requires KnownHead(s, p) && g && OffsetSite(s, p + 2)
    ensures LoopTurn(s, p, g)
      == Turn([s[p], s[p + 1]] + [OffsetXCall, AddOp, s[p + 2], OffsetYCall, AddOp, s[p + 3], s[p + 4]], p + 5)
  {
  }

  /** At a known head whose constant slot is not an offset site: the head and the margin check's result. */
  lemma {:induction false} HeadCopyTurn(s: seq<Instruction>, p: nat, g: bool)
    requires KnownHead(s, p) && !(g && OffsetSite(s, p + 2))
    ensures LoopTurn(s, p, g) == Turn([s[p], s[p + 1]] + [Margined(s[p + 2], HeadComponent(s, p))], p + 3)
  {
  }

  /** At an offset site that is not a known head: the wrapped site and two copies. */
  lemma {:induction false} SiteTurn(s: seq<Instruction>, p: nat, g: bool)
    requires !KnownHead(s, p) && g && OffsetSite(s, p)
    ensures LoopTurn(s, p, g) == Turn([OffsetXCall, AddOp, s[p], OffsetYCall, AddOp, s[p + 1], s[p + 2]], p + 3)
  {
  }

  /** Anywhere else: the instruction alone. */
  lemma {:induction false} CopyTurn(s: seq<Instruction>, p: nat, g: bool)
    requires p < |s| && !KnownHead(s, p) && !(g && OffsetSite(s, p))
    ensures LoopTurn(s, p, g) == Turn([s[p]], p + 1)
  {
  }

  // The same stretches of the expansion.

  /** The expansion from p when p is not a site: t[p] alone. */
  lemma {:induction false} ExpandCopy(t: seq<Instruction>, p: nat, g: bool)
    requires p < |t| && !(g && OffsetSite(t, p))
    ensures ExpandFrom(t, p, g) == [t[p]] + ExpandFrom(t, p + 1, g)
  {
  }

  /** Three positions, the first two not `ldloc.1` and the third not a site, are copied one by one. */
  lemma {:induction false} ExpandCopyThree(t: seq<Instruction>, p: nat, g: bool)
    requires p + 2 < |t| && t[p].opcode != Ldloc1 && t[p + 1].opcode != Ldloc1 && !(g && OffsetSite(t, p + 2))
    ensures ExpandFrom(t, p, g) == [t[p], t[p + 1], t[p + 2]] + ExpandFrom(t, p + 3, g)
  {
    ExpandCopy(t, p, g);
    ExpandCopy(t, p + 1, g);
    ExpandCopy(t, p + 2, g);
  }

  /** The expansion from a site p whose second next position is not a site. */
  lemma {:induction false} ExpandSite(t: seq<Instruction>, p: nat, g: bool)
    requires g && OffsetSite(t, p) && !OffsetSite(t, p + 2)
    ensures ExpandFrom(t, p, g)
      == [OffsetXCall, AddOp, t[p], OffsetYCall, AddOp, t[p + 1], t[p + 2]] + ExpandFrom(t, p + 3, g)
  {
    ExpandCopy(t, p + 1, g);
    ExpandCopy(t, p + 2, g);
  }

  /** Two positions that are not `ldloc.1`, then a site whose second next position is not a site. */
  lemma {:induction false} ExpandHeadSite(t: seq<Instruction>, p: nat, g: bool)
    requires p + 1 < |t| && t[p].opcode != Ldloc1 && t[p + 1].opcode != Ldloc1
    requires g && OffsetSite(t, p + 2) && !OffsetSite(t, p + 4)
    ensures ExpandFrom(t, p, g)
      == ([t[p], t[p + 1]] + [OffsetXCall, AddOp, t[p + 2], OffsetYCall, AddOp, t[p + 3], t[p + 4]]) + ExpandFrom(t, p + 5, g)
  {
    ExpandCopy(t, p, g);
    ExpandCopy(t, p + 1, g);
    ExpandSite(t, p + 2, g);
    ConsTwo(t[p], t[p + 1], [OffsetXCall, AddOp, t[p + 2], OffsetYCall, AddOp, t[p + 3], t[p + 4]], ExpandFrom(t, p + 5, g));
  }

  /** Two single elements put in front of w + r, regrouped. */
  lemma ConsTwo<T>(a: T, b: T, w: seq<T>, r: seq<T>)
    ensures [a] + ([b] + (w + r)) == ([a, b] + w) + r
  {
  }

  // Each kind of turn emits the rewrite of what it consumed.

  lemma {:induction false} HeadSiteAgrees(s: seq<Instruction>, p: nat, g: bool)
    requires KnownHead(s, p) && g && OffsetSite(s, p + 2) && !OffsetSite(s, p + 4)
    ensures LoopTurn(s, p, g).next == p + 5
    ensures ExpandFrom(Rewritten(s), p, g) == LoopTurn(s, p, g).emitted + ExpandFrom(Rewritten(s), p + 5, g)
  {
    var t := Rewritten(s);
    HeadSlot(s, p);
    Kept(s, p + 2);
    Kept(s, p + 4);
    OffsetSitesKept(s, p + 2);
    OffsetSitesKept(s, p + 4);
    ExpandHeadSite(t, p, g);
    HeadSiteTurn(s, p, g);
  }

  lemma {:induction false} HeadCopyAgrees(s: seq<Instruction>, p: nat, g: bool)
    requires KnownHead(s, p) && !(g && OffsetSite(s, p + 2))
    ensures LoopTurn(s, p, g).next == p + 3
    ensures ExpandFrom(Rewritten(s), p, g) == LoopTurn(s, p, g).emitted + ExpandFrom(Rewritten(s), p + 3, g)
  {
    HeadSlot(s, p);
    OffsetSitesKept(s, p + 2);
    ExpandCopyThree(Rewritten(s), p, g);
    HeadCopyTurn(s, p, g);
  }

  lemma {:induction false} SiteAgrees(s: seq<Instruction>, p: nat, g: bool)
    requires !KnownHead(s, p) && g && OffsetSite(s, p) && !OffsetSite(s, p + 2)
    ensures LoopTurn(s, p, g).next == p + 3
    ensures ExpandFrom(Rewritten(s), p, g) == LoopTurn(s, p, g).emitted + ExpandFrom(Rewritten(s), p + 3, g)
  {
    Kept(s, p);
    Kept(s, p + 1);
    Kept(s, p + 2);
    OffsetSitesKept(s, p);
    OffsetSitesKept(s, p + 2);
    ExpandSite(Rewritten(s), p, g);
    SiteTurn(s, p, g);
  }

  lemma {:induction false} CopyAgrees(s: seq<Instruction>, p: nat, g: bool)
    requires p < |s| && !KnownHead(s, p - 2) && !KnownHead(s, p) && !(g && OffsetSite(s, p))
    ensures LoopTurn(s, p, g).next == p + 1
    ensures ExpandFrom(Rewritten(s), p, g) == LoopTurn(s, p, g).emitted + ExpandFrom(Rewritten(s), p + 1, g)
  {
    Kept(s, p);
    OffsetSitesKept(s, p);
    ExpandCopy(Rewritten(s), p, g);
    CopyTurn(s, p, g);
  }

  /** Every turn from a turn start emits the rewrite of what it consumed and ends on a turn start. */
  lemma {:induction false} TurnAgrees(s: seq<Instruction>, p: nat, g: bool)
    requires Unshadowed(s, g) && p < |s| && TurnStart(s, p, g)
    ensures TurnStart(s, LoopTurn(s, p, g).next, g)
    ensures ExpandFrom(Rewritten(s), p, g) == LoopTurn(s, p, g).emitted + ExpandFrom(Rewritten(s), LoopTurn(s, p, g).next, g)
  {
    if KnownHead(s, p) {
      if g && OffsetSite(s, p + 2) {
        assert !OffsetSite(s, p + 4);
        HeadSiteAgrees(s, p, g);
      } else {
        HeadCopyAgrees(s, p, g);
      }
    } else if g && OffsetSite(s, p) {
      assert !OffsetSite(s, p + 2);
      SiteAgrees(s, p, g);
    } else {
      CopyAgrees(s, p, g);
    }
  }

  /** From a turn start on, the loop emits the rewrite of the rest of the stream. */
  lemma {:induction false} AgreesFrom(s: seq<Instruction>, p: nat, g: bool)
    requires Unshadowed(s, g) && p <= |s| && TurnStart(s, p, g)
    ensures PatchedFrom(s, p, g) == ExpandFrom(Rewritten(s), p, g)
    decreases |s| - p
  {
    if p < |s| {
      TurnAgrees(s, p, g);
      AgreesFrom(s, LoopTurn(s, p, g).next, g);
    }
  }

  /**
   * When no pattern is shadowed, the transpiler's output is the margin
   * rewrite with four instructions wrapped around every offset site (GetDrawLoc
   * only); without GetDrawLoc it is the margin rewrite alone.
   */
  lemma {:induction false} PatchedIsRewrite(s: seq<Instruction>, g: bool)
    requires Unshadowed(s, g)
    ensures PatchedFrom(s, 0, g) == ExpandFrom(Rewritten(s), 0, g)
    ensures !g ==> PatchedFrom(s, 0, g) == Rewritten(s)
  {
    AgreesFrom(s, 0, g);
    ExpandFacts(Rewritten(s), g);
  }

  // ---------------------------------------------------------------------
  // Inputs where a pattern is shadowed: the loop's index jumps over it.
  // ---------------------------------------------------------------------

  const BaseSizeLoad := Emit(Ldsflda, FieldRef(ColonistBar, BaseSize))
  const LoadX := Emit(Ldfld, FieldRef(Vector2, X))
  const MarginXConstant := Emit(LdcR4, Float32(AdjusterSettings.DefaultMarginX))
  const LoadLocal1 := Emit(Ldloc1, NoOperand)
  const NewVector2 := Emit(Newobj, MethodRef(Vector2, Ctor))
  const Return := Emit(Ret, NoOperand)

  /**
   * `BaseSize.x` twice in a row: the second head starts in the constant slot
   * of the first, which gets only the offset check, so its `ldc.r4 24` is
   * left alone although the rewrite would replace it.
   */
  lemma QuirkShadowedHead()
    ensures
      var s := [BaseSizeLoad, LoadX, BaseSizeLoad, LoadX, MarginXConstant, Return, Return];
      && !Unshadowed(s, false)
      && PatchedFrom(s, 0, false) == s
      && Rewritten(s)[4] == Substitute(MarginXConstant, GetMarginX)
  {
    var s := [BaseSizeLoad, LoadX, BaseSizeLoad, LoadX, MarginXConstant, Return, Return];
    assert KnownHead(s, 0) && KnownHead(s, 2);
    HeadCopyTurn(s, 0, false);
    CopyTurn(s, 3, false);
    CopyTurn(s, 4, false);
    CopyTurn(s, 5, false);
    CopyTurn(s, 6, false);
    assert PatchedFrom(s, 7, false) == [];
    assert PatchedFrom(s, 6, false) == [Return];
    assert PatchedFrom(s, 5, false) == [Return, Return];
    assert PatchedFrom(s, 4, false) == [MarginXConstant, Return, Return];
    assert PatchedFrom(s, 3, false) == [LoadX, MarginXConstant, Return, Return];
    assert MarginSite(s, 4);
  }

  /**
   * Two offset sites back to back: after wrapping the first, the index skips
   * the instruction after its `newobj`, which is the second site's `ldloc.1`,
   * so only four instructions are inserted, not eight.
   */
  lemma QuirkShadowedSite()
    ensures
      var s := [LoadLocal1, NewVector2, LoadLocal1, NewVector2, Return, Return];
      && !Unshadowed(s, true)
      && OffsetSite(s, 0) && OffsetSite(s, 2)
      && PatchedFrom(s, 0, true)
        == [OffsetXCall, AddOp, LoadLocal1, OffsetYCall, AddOp, NewVector2, LoadLocal1, NewVector2, Return, Return]
  {
    var s := [LoadLocal1, NewVector2, LoadLocal1, NewVector2, Return, Return];
    assert OffsetSite(s, 0) && OffsetSite(s, 2);
    SiteTurn(s, 0, true);
    CopyTurn(s, 3, true);
    CopyTurn(s, 4, true);
    CopyTurn(s, 5, true);
    assert PatchedFrom(s, 6, true) == [];
    assert PatchedFrom(s, 5, true) == [Return];
    assert PatchedFrom(s, 4, true) == [Return, Return];
    assert PatchedFrom(s, 3, true) == [NewVector2, Return, Return];
  }
}
