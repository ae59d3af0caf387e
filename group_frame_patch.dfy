/**
 * The DrawGroupFrame transpiler: two instructions are put in front of the
 * method body (`call get_HideBackground; brtrue endLabel`) and every `ret`
 * gets `endLabel`, so the frame is not drawn while the background is hidden.
 * Nothing else in the body changes.
 *
 * The end label is `new Label()`, the default label value, not one defined
 * by the method's IL generator; so nothing keeps the body from carrying the
 * same label already (EndLabelTargets says what the branch then reaches).
 */
module GroupFramePatch {
  import opened Instructions

  /** `new Label()`: the label whose wrapped integer is zero. */
  const DefaultLabel: Label := 0

  /** `call ColonistBarAdjuster::get_HideBackground()`. */
  const HideBackgroundCall := Emit(Call, GetHideBackground)

  /** The two instructions emitted before the body. */
  function Prologue(endLabel: Label): (r: seq<Instruction>)
    ensures |r| == 2 && r[0] == HideBackgroundCall
    ensures r[1].opcode == Brtrue && r[1].operand == LabelRef(endLabel) && r[1].labels == []
  {
    [HideBackgroundCall, Emit(Brtrue, LabelRef(endLabel))]
  }

  /** One body instruction as it is passed on: a `ret` gets `endLabel` appended to its labels. */
  function Marked(ins: Instruction, endLabel: Label): (r: Instruction)
    ensures r.opcode == ins.opcode && r.operand == ins.operand
    ensures ins.opcode == Ret ==> r.labels == ins.labels + [endLabel]
    ensures ins.opcode != Ret ==> r == ins
  {
    if ins.opcode == Ret then ins.(labels := ins.labels + [endLabel]) else ins
  }

  /** The body with every `ret` marked. */
  function MarkReturns(s: seq<Instruction>, endLabel: Label): (r: seq<Instruction>)
    ensures |r| == |s|
    ensures forall k :: 0 <= k < |s| ==> r[k] == Marked(s[k], endLabel)
  {
    seq(|s|, k requires 0 <= k < |s| => Marked(s[k], endLabel))
  }

  /**
   * The transpiler: yields the prologue, then every input instruction in
   * order, adding the default label to the labels of each `ret` on the way.
   */
  method DrawGroupFrameTranspiler(instructions: seq<Instruction>) returns (output: seq<Instruction>)
    ensures output == Prologue(DefaultLabel) + MarkReturns(instructions, DefaultLabel)
  {
    var endLabel := DefaultLabel;
    output := [HideBackgroundCall, Emit(Brtrue, LabelRef(endLabel))];
    for k := 0 to |instructions|
      invariant |output| == k + 2 && output[..2] == Prologue(endLabel)
      invariant forall j :: 0 <= j < k ==> output[j + 2] == Marked(instructions[j], endLabel)
    {
      var instruction := instructions[k];
      if instruction.opcode == Ret {
        instruction := instruction.(labels := instruction.labels + [endLabel]);
      }
      output := output + [instruction];
    }
  }

  /**
   * The output is two longer than the input; the body comes after the
   * prologue in the same order, each instruction with its opcode and operand,
   * and every instruction other than `ret` exactly as it was.
   */
  lemma {:induction false} OutputShape(s: seq<Instruction>, endLabel: Label, k: int)
    requires 0 <= k < |s|
    ensures |Prologue(endLabel) + MarkReturns(s, endLabel)| == |s| + 2
    ensures
      var r := Prologue(endLabel) + MarkReturns(s, endLabel);
      && r[k + 2].opcode == s[k].opcode && r[k + 2].operand == s[k].operand
      && (s[k].opcode != Ret ==> r[k + 2] == s[k])
      && (s[k].opcode == Ret ==> r[k + 2].labels == s[k].labels + [endLabel])
  {
  }

  /**
   * Whatever the body carries, the branch reaches every `ret` of the body and
   * every body instruction that already had the label, and nothing else.
   */
  lemma {:induction false} EndLabelTargets(s: seq<Instruction>, endLabel: Label, j: int)
    requires 0 <= j < |s| + 2
    ensures
      var r := Prologue(endLabel) + MarkReturns(s, endLabel);
      endLabel in r[j].labels <==> 2 <= j && (s[j - 2].opcode == Ret || endLabel in s[j - 2].labels)
  {
    var r := Prologue(endLabel) + MarkReturns(s, endLabel);
    if 2 <= j {
      assert r[j] == Marked(s[j - 2], endLabel);
    }
  }

  /** A body whose only instruction already carries the default label: the branch also lands on it. */
  lemma DefaultLabelCollision()
    ensures
      var s := [Instruction(Other(0), NoOperand, [DefaultLabel]), Emit(Ret, NoOperand)];
      var r := Prologue(DefaultLabel) + MarkReturns(s, DefaultLabel);
      s[0].opcode != Ret && DefaultLabel in r[2].labels
  {
    var s := [Instruction(Other(0), NoOperand, [DefaultLabel]), Emit(Ret, NoOperand)];
    EndLabelTargets(s, DefaultLabel, 2);
  }

  /** endLabel is not yet on any instruction of s. */
  predicate Fresh(s: seq<Instruction>, endLabel: Label)
  {
    forall k :: 0 <= k < |s| ==> endLabel !in s[k].labels
  }

  /**
   * With a fresh endLabel, the branch target is exactly the `ret`
   * instructions: the label sits on an output instruction if and only if it
   * is a `ret` of the body.
   */
  lemma {:induction false} EndLabelOnReturns(s: seq<Instruction>, endLabel: Label, j: int)
    requires Fresh(s, endLabel) && 0 <= j < |s| + 2
    ensures
      var r := Prologue(endLabel) + MarkReturns(s, endLabel);
      endLabel in r[j].labels <==> 2 <= j && s[j - 2].opcode == Ret
  {
    EndLabelTargets(s, endLabel, j);
    if 2 <= j {
      assert endLabel !in s[j - 2].labels;
    }
  }

  /** A `ret` with its last label taken off, the reverse of Marked. */
  function Unmarked(ins: Instruction): (r: Instruction)
    ensures r.opcode == ins.opcode && r.operand == ins.operand
  {
    if ins.opcode == Ret && |ins.labels| > 0 then ins.(labels := ins.labels[..|ins.labels| - 1]) else ins
  }

  /** Taking the prologue off the output and the last label off each `ret` gives back the input. */
  lemma {:induction false} UnmarkRoundTrip(s: seq<Instruction>, endLabel: Label)
    ensures
      var r := Prologue(endLabel) + MarkReturns(s, endLabel);
      seq(|s|, k requires 0 <= k < |s| => Unmarked(r[k + 2])) == s
  {
    var r := Prologue(endLabel) + MarkReturns(s, endLabel);
    var u := seq(|s|, k requires 0 <= k < |s| => Unmarked(r[k + 2]));
    forall k | 0 <= k < |s|
      ensures u[k] == s[k]
    {
      if s[k].opcode == Ret {
        assert (s[k].labels + [endLabel])[..|s[k].labels|] == s[k].labels;
      }
    }
  }
}
