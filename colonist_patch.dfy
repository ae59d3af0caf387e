/**
 * The DrawColonist transpiler: after every load of the static
 * `PawnTextureSize` field it inserts `call get_BaseScale; call
 * Vector2::op_Multiply`, so the portrait size is scaled by the mod's base
 * scale. When no such load is found an error is logged.
 */
module ColonistPatch {
  import opened Instructions

  /** `ldsfld <T>::PawnTextureSize`; only the field's name is compared, not its declaring type. */
  predicate IsPawnTextureSizeLoad(ins: Instruction)
  {
    ins.opcode == Ldsfld && ins.operand.FieldRef? && ins.operand.name == PawnTextureSize
  }

  const BaseScaleCall := Emit(Call, GetBaseScale)
  const MultiplyCall := Emit(Call, Vector2Multiply)

  /** What the transpiler yields for one input instruction. */
  function Scaled(ins: Instruction): (r: seq<Instruction>)
    ensures IsPawnTextureSizeLoad(ins) ==> r == [ins, BaseScaleCall, MultiplyCall]
    ensures !IsPawnTextureSizeLoad(ins) ==> r == [ins]
  {
    if IsPawnTextureSizeLoad(ins) then [ins, BaseScaleCall, MultiplyCall] else [ins]
  }

  /** The whole output: each instruction's piece, in input order. */
  function ScaleLoads(s: seq<Instruction>): seq<Instruction>
  {
    if s == [] then [] else Scaled(s[0]) + ScaleLoads(s[1..])
  }

  /** The number of `PawnTextureSize` loads in s. */
  function Occurrences(s: seq<Instruction>): (n: nat)
    ensures n <= |s|
  {
    if s == [] then 0 else (if IsPawnTextureSizeLoad(s[0]) then 1 else 0) + Occurrences(s[1..])
  }

  /**
   * The transpiler: yields every input instruction and, after each
   * `PawnTextureSize` load, the two calls; reports an error when it patched
   * nothing.
   */
  method DrawColonistTranspiler(instructions: seq<Instruction>) returns (output: seq<Instruction>, errorLogged: bool)
    ensures output == ScaleLoads(instructions)
    ensures errorLogged <==> Occurrences(instructions) == 0
  {
    var added := false;
    output := [];
    for k := 0 to |instructions|
      invariant output == ScaleLoads(instructions[..k])
      invariant added <==> Occurrences(instructions[..k]) > 0
    {
      var instruction := instructions[k];
      PrefixStep(instructions, k);
      output := output + [instruction];
      if instruction.opcode == Ldsfld && instruction.operand.FieldRef? && instruction.operand.name == PawnTextureSize {
        AppendTwo(output, BaseScaleCall, MultiplyCall);
        output := output + [BaseScaleCall, MultiplyCall];
        added := true;
      }
    }
    assert instructions[..|instructions|] == instructions;
    errorLogged := !added;
  }

  /** Growing the prefix by one instruction adds that instruction's piece and its count. */
  lemma {:induction false} PrefixStep(s: seq<Instruction>, k: nat)
    requires k < |s|
    ensures ScaleLoads(s[..k + 1]) == ScaleLoads(s[..k]) + Scaled(s[k])
    ensures Occurrences(s[..k + 1]) == Occurrences(s[..k]) + if IsPawnTextureSizeLoad(s[k]) then 1 else 0
  {
    assert s[..k + 1] == s[..k] + [s[k]];
    ScaleLoadsAppend(s[..k], [s[k]]);
    OccurrencesAppend(s[..k], [s[k]]);
    assert [s[k]][1..] == [];
  }

  /** Appending two instructions after a single one. */
  lemma AppendTwo(a: seq<Instruction>, y: Instruction, z: Instruction)
    requires |a| > 0
    ensures a + [y, z] == a[..|a| - 1] + [a[|a| - 1], y, z]
  {
  }

  lemma {:induction false} ScaleLoadsAppend(a: seq<Instruction>, b: seq<Instruction>)
    ensures ScaleLoads(a + b) == ScaleLoads(a) + ScaleLoads(b)
  {
    if a == [] {
      assert a + b == b;
    } else {
      assert (a + b)[1..] == a[1..] + b;
      ScaleLoadsAppend(a[1..], b);
    }
  }

  lemma {:induction false} OccurrencesAppend(a: seq<Instruction>, b: seq<Instruction>)
    ensures Occurrences(a + b) == Occurrences(a) + Occurrences(b)
  {
    if a == [] {
      assert a + b == b;
    } else {
      assert (a + b)[1..] == a[1..] + b;
      OccurrencesAppend(a[1..], b);
    }
  }

  /** Two instructions are inserted per load, none elsewhere. */
  lemma {:induction false} ScaleLoadsLength(s: seq<Instruction>)
    ensures |ScaleLoads(s)| == |s| + 2 * Occurrences(s)
  {
    if s != [] {
      ScaleLoadsLength(s[1..]);
    }
  }

  /** No error is logged exactly when no instruction of s is a `PawnTextureSize` load. */
  lemma {:induction false} NoOccurrences(s: seq<Instruction>)
    ensures Occurrences(s) == 0 <==> forall k :: 0 <= k < |s| ==> !IsPawnTextureSizeLoad(s[k])
  {
    if s != [] {
      NoOccurrences(s[1..]);
      assert forall k :: 1 <= k < |s| ==> s[k] == s[1..][k - 1];
    }
  }

  /**
   * Every instruction of s comes out in order, shifted by two places per
   * earlier load; every load, not only the first, is followed by the two calls.
   */
  lemma {:induction false} ScaleLoadsAt(s: seq<Instruction>, k: int)
    requires 0 <= k < |s|
    ensures
      var r := ScaleLoads(s);
      var o := k + 2 * Occurrences(s[..k]);
      && o < |r| && r[o] == s[k]
      && (IsPawnTextureSizeLoad(s[k]) ==> o + 2 < |r| && r[o + 1] == BaseScaleCall && r[o + 2] == MultiplyCall)
  {
    assert s == s[..k] + ([s[k]] + s[k + 1..]);
    ScaleLoadsAppend(s[..k], [s[k]] + s[k + 1..]);
    ScaleLoadsAppend([s[k]], s[k + 1..]);
    ScaleLoadsLength(s[..k]);
    assert ScaleLoads([s[k]]) == Scaled(s[k]) by {
      assert [s[k]][1..] == [];
    }
  }

  /** The inserted calls are not loads themselves: a second application patches the same loads again. */
  lemma {:induction false} OccurrencesKept(s: seq<Instruction>)
    ensures Occurrences(ScaleLoads(s)) == Occurrences(s)
  {
    if s != [] {
      OccurrencesKept(s[1..]);
      OccurrencesAppend(Scaled(s[0]), ScaleLoads(s[1..]));
      if IsPawnTextureSizeLoad(s[0]) {
        assert [s[0], BaseScaleCall, MultiplyCall] == [s[0]] + ([BaseScaleCall] + [MultiplyCall]);
        OccurrencesAppend([s[0]], [BaseScaleCall] + [MultiplyCall]);
        OccurrencesAppend([BaseScaleCall], [MultiplyCall]);
        OccurrenceOne(s[0]);
        OccurrenceOne(BaseScaleCall);
        OccurrenceOne(MultiplyCall);
      } else {
        OccurrenceOne(s[0]);
      }
    }
  }

  lemma {:induction false} OccurrenceOne(x: Instruction)
    ensures Occurrences([x]) == if IsPawnTextureSizeLoad(x) then 1 else 0
  {
    assert [x][1..] == [];
  }

  /** Applying the patch twice inserts the calls twice (the patch is not idempotent). */
  lemma {:induction false} PatchedTwice(s: seq<Instruction>)
    ensures |ScaleLoads(ScaleLoads(s))| == |s| + 4 * Occurrences(s)
  {
    ScaleLoadsLength(s);
    ScaleLoadsLength(ScaleLoads(s));
    OccurrencesKept(s);
  }

  /** Removing the two instructions after each load, the reverse of ScaleLoads. */
  function Unscaled(t: seq<Instruction>): seq<Instruction>
    decreases |t|
  {
    if t == [] then []
    else if IsPawnTextureSizeLoad(t[0]) && |t| >= 3 then [t[0]] + Unscaled(t[3..])
    else [t[0]] + Unscaled(t[1..])
  }

  /** Unscaled undoes the patch on every input. */
  lemma {:induction false} UnscaleRoundTrip(s: seq<Instruction>)
    ensures Unscaled(ScaleLoads(s)) == s
  {
    if s != [] {
      UnscaleRoundTrip(s[1..]);
      var r := ScaleLoads(s);
      if IsPawnTextureSizeLoad(s[0]) {
        assert r == [s[0], BaseScaleCall, MultiplyCall] + ScaleLoads(s[1..]);
        assert r[3..] == ScaleLoads(s[1..]);
      } else {
        assert r == [s[0]] + ScaleLoads(s[1..]);
        assert r[1..] == ScaleLoads(s[1..]);
      }
      assert s == [s[0]] + s[1..];
    }
  }
}
