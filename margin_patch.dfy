/**
 * ColonistMarginAdjustment_Transpiler, applied to GetDrawLoc and to
 * CalculateDrawLocs. It walks the instruction list with an index that it
 * moves by hand while the list grows under it:
 *  - margins: `ldsflda ColonistBar.BaseSize; ldfld Vector2.x|y; ldc.r4 24|32`
 *    has its constant turned into a call of the MarginX/MarginY getter;
 *  - offsets (GetDrawLoc only): `ldloc.1; newobj Vector2::.ctor` becomes
 *    `call OffsetX; add; ldloc.1; call OffsetY; add; newobj`.
 */
module MarginPatch {
  import opened Wrappers
  import opened Instructions
  import AdjusterSettings

  /** `ldsflda RimWorld.ColonistBar::BaseSize` */
  predicate IsBaseSize(ins: Instruction)
  {
    && ins.opcode == Ldsflda
    && ins.operand.FieldRef?
    && ins.operand.declaringType == ColonistBar
    && ins.operand.name == BaseSize
  }

  /** The field name loaded by `ldfld UnityEngine.Vector2::<name>`, or None. */
  function VectorXorY(ins: Instruction): (r: Option<MemberName>)
    ensures r.Some? <==> ins.opcode == Ldfld && ins.operand.FieldRef? && ins.operand.declaringType == Vector2
    ensures r.Some? ==> r.value == ins.operand.name
  {
    if ins.opcode == Ldfld && ins.operand.FieldRef? && ins.operand.declaringType == Vector2
    then Some(ins.operand.name) else None
  }

  /** `ldc.r4 baseMargin` */
  predicate IsMargin(ins: Instruction, baseMargin: real)
  {
    ins.opcode == LdcR4 && ins.operand.Float32? && ins.operand.value == baseMargin
  }

  /** `newobj UnityEngine.Vector2::.ctor` */
  predicate IsVectorCtor(ins: Instruction)
  {
    && ins.opcode == Newobj
    && (ins.operand.FieldRef? || ins.operand.MethodRef?)
    && ins.operand.declaringType == Vector2
    && ins.operand.name == Ctor
  }

  /** The switch on the component name: the default margin it replaces and the getter replacing it. */
  function MarginFor(component: MemberName): (r: Option<(real, Operand)>)
    ensures component == X ==> r == Some((AdjusterSettings.DefaultMarginX, GetMarginX))
    ensures component == Y ==> r == Some((AdjusterSettings.DefaultMarginY, GetMarginY))
    ensures component != X && component != Y ==> r == None
  {
    match component
    case X => Some((AdjusterSettings.DefaultMarginX, GetMarginX))
    case Y => Some((AdjusterSettings.DefaultMarginY, GetMarginY))
    case _ => None
  }

  /** Only opcode and operand are rewritten; the labels stay on the instruction. */
  function Substitute(ins: Instruction, getter: Operand): (r: Instruction)
    ensures r.opcode == Call && r.operand == getter && r.labels == ins.labels
  {
    ins.(opcode := Call, operand := getter)
  }

  /**
   * The margin check on the constant slot after `BaseSize.<component>`: the
   * getter call when the slot loads the default margin, the slot unchanged
   * otherwise.
   */
  function Margined(ins: Instruction, component: MemberName): (r: Instruction)
    requires MarginFor(component).Some?
    ensures r.labels == ins.labels
  {
    var (baseMargin, getter) := MarginFor(component).value;
    if IsMargin(ins, baseMargin) then Substitute(ins, getter) else ins
  }

  /** `List.Insert(i, x)`. */
  function Insert(s: seq<Instruction>, i: nat, x: Instruction): (r: seq<Instruction>)
    requires i <= |s|
    ensures |r| == |s| + 1
  {
    s[..i] + [x] + s[i..]
  }

  /** The four instructions inserted around `ldloc.1` at an offset site. */
  const OffsetXCall := Emit(Call, GetOffsetX)
  const OffsetYCall := Emit(Call, GetOffsetY)
  const AddOp := Emit(Add, NoOperand)

  // ---------------------------------------------------------------------
  // The transpiler as a stream: what one turn of the loop emits.
  // ---------------------------------------------------------------------

  /** What one turn of the loop emits, and the input position the next turn starts at. */
  datatype Turn = Turn(emitted: seq<Instruction>, next: nat)

  /**
   * The offset check at input position q, where the instruction now at q is
   * `cur`. After an insertion the index is moved past the `newobj`, and the
   * loop's own increment skips one instruction more.
   */
  function OffsetTurn(s: seq<Instruction>, q: nat, cur: Instruction, getDrawLoc: bool): (t: Turn)
    requires q < |s|
    ensures q < t.next <= |s|
    ensures t.next == q + 1 || t.next == q + 3
  {
    if getDrawLoc && q < |s| - 2 && cur.opcode == Ldloc1 && IsVectorCtor(s[q + 1]) then
      Turn([OffsetXCall, AddOp, cur, OffsetYCall, AddOp, s[q + 1], s[q + 2]], q + 3)
    else
      Turn([cur], q + 1)
  }

  /**
   * One turn of the loop with its index on input position p (nothing at or
   * after p touched yet). A margin match moves the index two places before
   * the offset check, so neither the `ldfld` nor the constant's slot gets a
   * margin check of its own; an unknown component name skips the offset
   * check for that index (`continue`).
   */
  function LoopTurn(s: seq<Instruction>, p: nat, getDrawLoc: bool): (t: Turn)
    requires p < |s|
    ensures p < t.next <= |s|
  {
    if p < |s| - 3 && IsBaseSize(s[p]) && VectorXorY(s[p + 1]).Some? then
      var component := VectorXorY(s[p + 1]).value;
      if MarginFor(component).None? then Turn([s[p]], p + 1)
      else
        var t := OffsetTurn(s, p + 2, Margined(s[p + 2], component), getDrawLoc);
        Turn([s[p], s[p + 1]] + t.emitted, t.next)
    else OffsetTurn(s, p, s[p], getDrawLoc)
  }

  /** The transpiler's output for the input from position p on, when the loop's index stands on p. */
  function PatchedFrom(s: seq<Instruction>, p: nat, getDrawLoc: bool): seq<Instruction>
    requires p <= |s|
    decreases |s| - p
  {
    if p == |s| then []
    else
      var t := LoopTurn(s, p, getDrawLoc);
      t.emitted + PatchedFrom(s, t.next, getDrawLoc)
  }

  // ---------------------------------------------------------------------
  // The loop itself, one turn at a time, on the list being edited.
  // ---------------------------------------------------------------------

  /** The list being edited and the loop's index into it. */
  datatype Cursor = Cursor(list: seq<Instruction>, i: nat)

  /**
   * The `// margins` block at index i: the list and index after it, and
   * whether the turn ends there (`continue`).
   */
  function MarginBlock(c: Cursor): (r: (Cursor, bool))
    requires c.i < |c.list|
    ensures |r.0.list| == |c.list| && c.i <= r.0.i < |r.0.list|
  {
    var (list, i) := (c.list, c.i);
    if i < |list| - 3 && IsBaseSize(list[i]) && VectorXorY(list[i + 1]).Some? then
      var component := VectorXorY(list[i + 1]).value;
      if MarginFor(component).None? then (c, true)
      else
        var (baseMargin, replacer) := MarginFor(component).value;
        if IsMargin(list[i + 2], baseMargin)
        then (Cursor(list[i + 2 := Substitute(list[i + 2], replacer)], i + 2), false)
        else (Cursor(list, i + 2), false)
    else (c, false)
  }

  /** The `// offsets` block at index i (the four `list.Insert` calls and the index moves between them). */
  function OffsetBlock(c: Cursor, isGetDrawLoc: bool): (r: Cursor)
    requires c.i < |c.list|
    ensures c.i <= r.i < |r.list| && |r.list| - r.i <= |c.list| - c.i
  {
    var (list, i) := (c.list, c.i);
    if isGetDrawLoc && i < |list| - 2 && list[i].opcode == Ldloc1 && IsVectorCtor(list[i + 1]) then
      var l1 := Insert(list, i, OffsetXCall);
      var l2 := Insert(l1, i + 1, AddOp);
      var l3 := Insert(l2, i + 3, OffsetYCall);
      var l4 := Insert(l3, i + 4, AddOp);
      Cursor(l4, i + 6)
    else c
  }

  /** One turn of the `for` loop, including its i++. */
  function LoopBody(c: Cursor, isGetDrawLoc: bool): (r: Cursor)
    requires c.i < |c.list|
    ensures r.i <= |r.list| && |r.list| - r.i < |c.list| - c.i
  {
    var (m, skip) := MarginBlock(c);
    if skip then Cursor(m.list, m.i + 1)
    else
      var o := OffsetBlock(m, isGetDrawLoc);
      Cursor(o.list, o.i + 1)
  }

  /** The cursors the loop stands on at the start of each turn, the last one past the end of the list. */
  ghost predicate IsTrace(trace: seq<Cursor>, isGetDrawLoc: bool)
  {
    && |trace| >= 1
    && (forall k :: 0 <= k < |trace| - 1 ==>
          trace[k].i < |trace[k].list| && trace[k + 1] == LoopBody(trace[k], isGetDrawLoc))
    && trace[|trace| - 1].i == |trace[|trace| - 1].list|
  }

  /** The loop's trace from cursor c. */
  lemma {:induction false} TraceFrom(c: Cursor, isGetDrawLoc: bool) returns (trace: seq<Cursor>)
    requires c.i <= |c.list|
    ensures IsTrace(trace, isGetDrawLoc) && trace[0] == c
    decreases |c.list| - c.i
  {
    if c.i == |c.list| {
      trace := [c];
    } else {
      var rest := TraceFrom(LoopBody(c, isGetDrawLoc), isGetDrawLoc);
      trace := [c] + rest;
      assert forall k :: 1 <= k < |trace| ==> trace[k] == rest[k - 1];
    }
  }

  /** The `// margins` block of the loop body, on the list and index it shares with the loop. */
  method Margins(list: seq<Instruction>, i: nat) returns (list': seq<Instruction>, i': nat, skip: bool)
    requires i < |list|
    ensures (Cursor(list', i'), skip) == MarginBlock(Cursor(list, i))
  {
    list', i', skip := list, i, false;
    if i < |list| - 3 && IsBaseSize(list[i]) && VectorXorY(list[i + 1]).Some? {
      var v := VectorXorY(list[i + 1]).value;
      var baseMargin: real;
      var replacer: Operand;
      if v == X {
        baseMargin, replacer := AdjusterSettings.DefaultMarginX, GetMarginX;
      } else if v == Y {
        baseMargin, replacer := AdjusterSettings.DefaultMarginY, GetMarginY;
      } else {
        skip := true;
        return;
      }
      i' := i + 2;
      if IsMargin(list[i'], baseMargin) {
        list' := list[i' := Substitute(list[i'], replacer)];
      }
    }
  }

  /** The `// offsets` block of the loop body. */
  method Offsets(list: seq<Instruction>, i: nat, isGetDrawLoc: bool) returns (list': seq<Instruction>, i': nat)
    requires i < |list|
    ensures Cursor(list', i') == OffsetBlock(Cursor(list, i), isGetDrawLoc)
  {
    list', i' := list, i;
    if isGetDrawLoc && i' < |list'| - 2 && list'[i'].opcode == Ldloc1 && IsVectorCtor(list'[i' + 1]) {
      list' := Insert(list', i', OffsetXCall);
      i' := i' + 1; // skip Call
      list' := Insert(list', i', AddOp);
      i' := i' + 2; // skip Add and Ldloc_1
      list' := Insert(list', i', OffsetYCall);
      i' := i' + 1; // skip Call
      list' := Insert(list', i', AddOp);
      i' := i' + 2; // skip Add and Newobj
    }
  }

  /**
   * The transpiler itself: the list is edited in place (`list[i].opcode =`,
   * `list.Insert`) while the index i is adjusted by hand.
   */
  method ColonistMarginAdjustmentTranspiler(instructions: seq<Instruction>, isGetDrawLoc: bool)
    returns (list: seq<Instruction>)
    ensures list == PatchedFrom(instructions, 0, isGetDrawLoc)
  {
    list := instructions;
    var i: nat := 0;
    ghost var trace := TraceFrom(Cursor(instructions, 0), isGetDrawLoc);
    ghost var k := 0;
    while i < |list|
      invariant k < |trace| && trace[k] == Cursor(list, i)
      decreases |trace| - k
    {
      ghost var before := Cursor(list, i);
      var skip;
      list, i, skip := Margins(list, i);
      if skip {
        i, k := i + 1, k + 1;
        continue;
      }
      list, i := Offsets(list, i, isGetDrawLoc);
      i, k := i + 1, k + 1;
    }
    assert [] + instructions[0..] == instructions;
    TraceEmits(instructions, trace, 0, [], 0, isGetDrawLoc);
  }

  // ---------------------------------------------------------------------
  // The loop emits the stream: its trace ends with PatchedFrom.
  // ---------------------------------------------------------------------

  /** `list.Insert` four times around the `ldloc.1` at position |done|, with the index moves of the source. */
  lemma {:induction false} OffsetInsertions(done: seq<Instruction>, cur: Instruction, rest: seq<Instruction>)
    requires |rest| >= 2
    ensures
      var i := |done|;
      Insert(Insert(Insert(Insert(done + [cur] + rest, i, OffsetXCall), i + 1, AddOp), i + 3, OffsetYCall), i + 4, AddOp)
      == (done + [OffsetXCall, AddOp, cur, OffsetYCall, AddOp, rest[0], rest[1]]) + rest[2..]
  {
    var i := |done|;
    var l1 := Insert(done + [cur] + rest, i, OffsetXCall);
    assert l1 == done + [OffsetXCall, cur] + rest;
    var l2 := Insert(l1, i + 1, AddOp);
    assert l2 == done + [OffsetXCall, AddOp, cur] + rest;
    var l3 := Insert(l2, i + 3, OffsetYCall);
    assert l3 == done + [OffsetXCall, AddOp, cur, OffsetYCall] + rest;
    var l4 := Insert(l3, i + 4, AddOp);
    assert l4 == done + [OffsetXCall, AddOp, cur, OffsetYCall, AddOp] + rest;
    assert rest == [rest[0], rest[1]] + rest[2..];
  }

  /** The offset block on the list `out + [cur] + s[q+1..]` emits OffsetTurn(s, q, cur). */
  lemma {:induction false} OffsetBlockEmits(s: seq<Instruction>, q: nat, cur: Instruction, out: seq<Instruction>, g: bool)
    requires q < |s|
    ensures
      var t := OffsetTurn(s, q, cur, g);
      var o := OffsetBlock(Cursor(out + [cur] + s[q + 1..], |out|), g);
      Cursor(o.list, o.i + 1) == Cursor((out + t.emitted) + s[t.next..], |out + t.emitted|)
  {
    var list := out + [cur] + s[q + 1..];
    var i := |out|;
    assert list[i] == cur;
    if g && q < |s| - 2 && cur.opcode == Ldloc1 && IsVectorCtor(s[q + 1]) {
      assert list[i + 1] == s[q + 1];
      OffsetInsertions(out, cur, s[q + 1..]);
      assert s[q + 1..][2..] == s[q + 3..];
    } else {
      if i < |list| - 2 {
        assert list[i + 1] == s[q + 1];
      }
      assert list == (out + [cur]) + s[q + 1..];
    }
  }

  /** A turn at a margin head whose component the switch does not know ends at `continue`. */
  lemma {:induction false} UnknownHeadEmits(s: seq<Instruction>, p: nat, out: seq<Instruction>, g: bool)
    requires p < |s| - 3 && IsBaseSize(s[p]) && VectorXorY(s[p + 1]).Some?
    requires MarginFor(VectorXorY(s[p + 1]).value).None?
    ensures
      var t := LoopTurn(s, p, g);
      LoopBody(Cursor(out + s[p..], |out|), g) == Cursor((out + t.emitted) + s[t.next..], |out + t.emitted|)
  {
    var list := out + s[p..];
    assert list[|out|] == s[p] && list[|out| + 1] == s[p + 1];
    assert s[p..] == [s[p]] + s[p + 1..];
    assert list == (out + [s[p]]) + s[p + 1..];
  }

  /** The margin block at a known head on the list `out + s[p..]`. */
  lemma {:induction false} KnownHeadBlock(s: seq<Instruction>, p: nat, out: seq<Instruction>)
    requires p < |s| - 3 && IsBaseSize(s[p]) && VectorXorY(s[p + 1]).Some?
    requires MarginFor(VectorXorY(s[p + 1]).value).Some?
    ensures
      var c := Margined(s[p + 2], VectorXorY(s[p + 1]).value);
      var head := out + [s[p], s[p + 1]];
      MarginBlock(Cursor(out + s[p..], |out|)) == (Cursor(head + [c] + s[p + 3..], |head|), false)
  {
    var list := out + s[p..];
    var i := |out|;
    var c := Margined(s[p + 2], VectorXorY(s[p + 1]).value);
    var head := out + [s[p], s[p + 1]];
    assert s[p..] == [s[p], s[p + 1], s[p + 2]] + s[p + 3..];
    assert list == head + [s[p + 2]] + s[p + 3..];
    assert list[i] == s[p] && list[i + 1] == s[p + 1] && list[i + 2] == s[p + 2];
    assert list[i + 2 := c] == head + [c] + s[p + 3..];
  }

  /** A turn at a known margin head emits the head and the offset check's output at the constant slot. */
  lemma {:induction false} KnownHeadEmits(s: seq<Instruction>, p: nat, out: seq<Instruction>, g: bool)
    requires p < |s| - 3 && IsBaseSize(s[p]) && VectorXorY(s[p + 1]).Some?
    requires MarginFor(VectorXorY(s[p + 1]).value).Some?
    ensures
      var t := LoopTurn(s, p, g);
      LoopBody(Cursor(out + s[p..], |out|), g) == Cursor((out + t.emitted) + s[t.next..], |out + t.emitted|)
  {
    var c := Margined(s[p + 2], VectorXorY(s[p + 1]).value);
    var head := out + [s[p], s[p + 1]];
    KnownHeadBlock(s, p, out);
    OffsetBlockEmits(s, p + 2, c, head, g);
    var off := OffsetTurn(s, p + 2, c, g);
    assert LoopTurn(s, p, g) == Turn([s[p], s[p + 1]] + off.emitted, off.next);
    assert head + off.emitted == out + ([s[p], s[p + 1]] + off.emitted);
  }

  /** One turn of the loop on the list `out + s[p..]` emits LoopTurn(s, p). */
  lemma {:induction false} LoopBodyEmits(s: seq<Instruction>, p: nat, out: seq<Instruction>, g: bool)
    requires p < |s|
    ensures
      var t := LoopTurn(s, p, g);
      LoopBody(Cursor(out + s[p..], |out|), g) == Cursor((out + t.emitted) + s[t.next..], |out + t.emitted|)
  {
    if p < |s| - 3 && IsBaseSize(s[p]) && VectorXorY(s[p + 1]).Some? {
      if MarginFor(VectorXorY(s[p + 1]).value).None? {
        UnknownHeadEmits(s, p, out, g);
      } else {
        KnownHeadEmits(s, p, out, g);
      }
    } else {
      PlainEmits(s, p, out, g);
    }
  }

  /** A turn that finds no margin head is the offset check on s[p]. */
  lemma {:induction false} PlainEmits(s: seq<Instruction>, p: nat, out: seq<Instruction>, g: bool)
    requires p < |s| && !(p < |s| - 3 && IsBaseSize(s[p]) && VectorXorY(s[p + 1]).Some?)
    ensures
      var t := LoopTurn(s, p, g);
      LoopBody(Cursor(out + s[p..], |out|), g) == Cursor((out + t.emitted) + s[t.next..], |out + t.emitted|)
  {
    var list := out + s[p..];
    assert list == out + [s[p]] + s[p + 1..];
    assert list[|out|] == s[p];
    if |out| < |list| - 3 {
      assert list[|out| + 1] == s[p + 1];
    }
    OffsetBlockEmits(s, p, s[p], out, g);
  }

  /** Concatenation regroups. */
  lemma AppendAssoc<T>(a: seq<T>, b: seq<T>, c: seq<T>)
    ensures (a + b) + c == a + (b + c)
  {
  }

  /** One step of a trace consumes one turn of the original stream. */
  lemma TraceStep(s: seq<Instruction>, trace: seq<Cursor>, k: nat, out: seq<Instruction>, p: nat, g: bool)
    returns (t: Turn)
    requires IsTrace(trace, g) && k < |trace| - 1 && p <= |s|
    requires trace[k] == Cursor(out + s[p..], |out|)
    ensures p < |s| && t == LoopTurn(s, p, g)
    ensures trace[k + 1] == Cursor((out + t.emitted) + s[t.next..], |out + t.emitted|)
  {
    assert trace[k].i < |trace[k].list|;
    t := LoopTurn(s, p, g);
    LoopBodyEmits(s, p, out, g);
  }

  /** PatchedFrom takes one turn and continues where the turn stops. */
  lemma PatchedStep(s: seq<Instruction>, p: nat, g: bool)
    requires p < |s|
    ensures PatchedFrom(s, p, g) == LoopTurn(s, p, g).emitted + PatchedFrom(s, LoopTurn(s, p, g).next, g)
  {
  }

  /** A trace that passes the cursor on `out + s[p..]` ends with `out` followed by PatchedFrom(s, p). */
  lemma {:induction false} TraceEmits(s: seq<Instruction>, trace: seq<Cursor>, k: nat, out: seq<Instruction>, p: nat, g: bool)
    requires IsTrace(trace, g) && k < |trace| && p <= |s|
    requires trace[k] == Cursor(out + s[p..], |out|)
    ensures trace[|trace| - 1].list == out + PatchedFrom(s, p, g)
    decreases |trace| - k
  {
    if k == |trace| - 1 {
      assert p == |s|;
      assert out + s[p..] == out;
    } else {
      var t := TraceStep(s, trace, k, out, p, g);
      TraceEmits(s, trace, k + 1, out + t.emitted, t.next, g);
      PatchedStep(s, p, g);
      AppendAssoc(out, t.emitted, PatchedFrom(s, t.next, g));
    }
  }

  // ---------------------------------------------------------------------
  // Facts about every input.
  // ---------------------------------------------------------------------

  /** The labels of a single instruction. */
  lemma {:induction false} AllLabelsOne(x: Instruction)
    ensures AllLabels([x]) == x.labels
  {
    assert [x][1..] == [];
  }

  /** The labels of an instruction put in front of r. */
  lemma {:induction false} AllLabelsCons(x: Instruction, r: seq<Instruction>)
    ensures AllLabels([x] + r) == x.labels + AllLabels(r)
  {
    assert ([x] + r)[1..] == r;
  }

  /** The four inserted instructions carry no labels. */
  lemma {:induction false} WrapLabels(cur: Instruction, b: Instruction, c: Instruction)
    ensures AllLabels([OffsetXCall, AddOp, cur, OffsetYCall, AddOp, b, c]) == cur.labels + b.labels + c.labels
  {
    SevenLabels(OffsetXCall, AddOp, cur, OffsetYCall, AddOp, b, c);
    AppendAssoc(cur.labels, b.labels, c.labels);
  }

  /** The labels of seven instructions in a row. */
  lemma {:induction false} SevenLabels(x1: Instruction, x2: Instruction, x3: Instruction, x4: Instruction,
                                       x5: Instruction, x6: Instruction, x7: Instruction)
    ensures AllLabels([x1, x2, x3, x4, x5, x6, x7])
      == x1.labels + (x2.labels + (x3.labels + (x4.labels + (x5.labels + (x6.labels + x7.labels)))))
  {
    var r6 := [x6] + [x7];
    var r5 := [x5] + r6;
    var r4 := [x4] + r5;
    var r3 := [x3] + r4;
    var r2 := [x2] + r3;
    assert [x1, x2, x3, x4, x5, x6, x7] == [x1] + r2;
    AllLabelsCons(x1, r2);
    AllLabelsCons(x2, r3);
    AllLabelsCons(x3, r4);
    AllLabelsCons(x4, r5);
    AllLabelsCons(x5, r6);
    AllLabelsCons(x6, [x7]);
    AllLabelsOne(x7);
  }

  /** The labels of s[p..n] as the labels of s[p] followed by those of s[p + 1..n]. */
  lemma {:induction false} SliceLabels(s: seq<Instruction>, p: nat, n: nat)
    requires p < n <= |s|
    ensures AllLabels(s[p..n]) == s[p].labels + AllLabels(s[p + 1..n])
  {
    assert s[p..n] == [s[p]] + s[p + 1..n];
    AllLabelsAppend([s[p]], s[p + 1..n]);
    AllLabelsOne(s[p]);
  }

  /** The offset check emits the labels of what it consumed, with `cur` in place of s[q]. */
  lemma {:induction false} OffsetTurnLabels(s: seq<Instruction>, q: nat, cur: Instruction, g: bool)
    requires q < |s| && cur.labels == s[q].labels
    ensures AllLabels(OffsetTurn(s, q, cur, g).emitted) == AllLabels(s[q..OffsetTurn(s, q, cur, g).next])
  {
    var t := OffsetTurn(s, q, cur, g);
    SliceLabels(s, q, t.next);
    if t.next == q + 3 {
      WrapLabels(cur, s[q + 1], s[q + 2]);
      SliceLabels(s, q + 1, q + 3);
      SliceLabels(s, q + 2, q + 3);
      assert s[q + 3..q + 3] == [];
    } else {
      AllLabelsOne(cur);
      assert s[q + 1..q + 1] == [];
    }
  }

  /** One turn emits the labels of what it consumed, in order. */
  lemma {:induction false} TurnLabels(s: seq<Instruction>, p: nat, g: bool)
    requires p < |s|
    ensures AllLabels(LoopTurn(s, p, g).emitted) == AllLabels(s[p..LoopTurn(s, p, g).next])
  {
    if p < |s| - 3 && IsBaseSize(s[p]) && VectorXorY(s[p + 1]).Some? && MarginFor(VectorXorY(s[p + 1]).value).Some? {
      var t := OffsetTurn(s, p + 2, Margined(s[p + 2], VectorXorY(s[p + 1]).value), g);
      OffsetTurnLabels(s, p + 2, Margined(s[p + 2], VectorXorY(s[p + 1]).value), g);
      assert [s[p], s[p + 1]] + t.emitted == [s[p]] + ([s[p + 1]] + t.emitted);
      AllLabelsAppend([s[p]], [s[p + 1]] + t.emitted);
      AllLabelsAppend([s[p + 1]], t.emitted);
      AllLabelsOne(s[p]);
      AllLabelsOne(s[p + 1]);
      SliceLabels(s, p, t.next);
      SliceLabels(s, p + 1, t.next);
    } else if p < |s| - 3 && IsBaseSize(s[p]) && VectorXorY(s[p + 1]).Some? {
      AllLabelsOne(s[p]);
      SliceLabels(s, p, p + 1);
      assert s[p + 1..p + 1] == [];
    } else {
      OffsetTurnLabels(s, p, s[p], g);
    }
  }

  /** The transpiler never moves, drops or adds a label: they come out in the input's order. */
  lemma {:induction false} PatchedLabels(s: seq<Instruction>, p: nat, g: bool)
    requires p <= |s|
    ensures AllLabels(PatchedFrom(s, p, g)) == AllLabels(s[p..])
    decreases |s| - p
  {
    if p == |s| {
      assert s[p..] == [];
    } else {
      var t := LoopTurn(s, p, g);
      TurnLabels(s, p, g);
      PatchedLabels(s, t.next, g);
      AllLabelsAppend(t.emitted, PatchedFrom(s, t.next, g));
      assert s[p..] == s[p..t.next] + s[t.next..];
      AllLabelsAppend(s[p..t.next], s[t.next..]);
    }
  }

  /** Outside GetDrawLoc nothing is inserted; in GetDrawLoc nothing is removed. */
  lemma {:induction false} PatchedLength(s: seq<Instruction>, p: nat, g: bool)
    requires p <= |s|
    ensures !g ==> |PatchedFrom(s, p, g)| == |s| - p
    ensures |s| - p <= |PatchedFrom(s, p, g)|
    decreases |s| - p
  {
    if p < |s| {
      TurnLength(s, p, g);
      PatchedLength(s, LoopTurn(s, p, g).next, g);
    }
  }

  /** A turn emits what it consumed, plus four instructions when it wraps an offset site. */
  lemma {:induction false} TurnLength(s: seq<Instruction>, p: nat, g: bool)
    requires p < |s|
    ensures
      var t := LoopTurn(s, p, g);
      |t.emitted| == t.next - p || (g && |t.emitted| == t.next - p + 4)
  {
  }
}
