/**
 * The instruction stream Harmony hands to a transpiler: a list of CIL
 * instructions, each with an opcode (ECMA-335 Partition III), an operand and
 * the branch labels attached to it. Reflection objects (FieldInfo,
 * MethodInfo, ConstructorInfo) become symbolic references that keep exactly
 * the two facts the patches inspect: the declaring type and the member name,
 * each a tag; the names the patches never look for are told apart only by an id.
 */
module Instructions {

  /** The opcodes the patches test for or emit; every other opcode is `Other`. */
  datatype Opcode =
    | Ldsflda | Ldfld | LdcR4 | Ldloc1 | Newobj | Ldsfld | Brtrue | Ret | Call | Add
    | Other(code: nat)

  /** A branch-target label (System.Reflection.Emit.Label is a wrapped integer). */
  type Label = nat

  /** Declaring types, by the full name the patches compare against. */
  datatype TypeName =
    | ColonistBarAdjuster   // ColonistBarAdjuster.ColonistBarAdjuster
    | Vector2               // UnityEngine.Vector2
    | ColonistBar           // RimWorld.ColonistBar
    | OtherType(id: nat)

  /** The mod's static settings properties whose getters patched code calls. */
  datatype Property = MarginX | MarginY | OffsetX | OffsetY | BaseScale | HideBackground

  /** Member names the patches compare against. */
  datatype MemberName =
    | BaseSize              // ColonistBar.BaseSize
    | X | Y                 // Vector2.x, Vector2.y
    | Ctor                  // .ctor
    | PawnTextureSize       // ColonistBarColonistDrawer.PawnTextureSize
    | OpMultiply            // Vector2.op_Multiply
    | Getter(property: Property)   // get_<property>
    | OtherName(id: nat)

  datatype Operand =
    | NoOperand
    | FieldRef(declaringType: TypeName, name: MemberName)
    | MethodRef(declaringType: TypeName, name: MemberName)
    | Float32(value: real)
    | LabelRef(target: Label)
    | OtherOperand(id: nat)

  /** A CodeInstruction; `labels` is its list of labels in insertion order. */
  datatype Instruction = Instruction(opcode: Opcode, operand: Operand, labels: seq<Label>)

  /** `new CodeInstruction(opcode, operand)`: a fresh instruction carries no labels. */
  function Emit(opcode: Opcode, operand: Operand): (r: Instruction)
    ensures r.opcode == opcode && r.operand == operand && r.labels == []
  {
    Instruction(opcode, operand, [])
  }

  /** Getters of the mod's static forwarding properties, called by patched host code. */
  const GetMarginX := MethodRef(ColonistBarAdjuster, Getter(MarginX))
  const GetMarginY := MethodRef(ColonistBarAdjuster, Getter(MarginY))
  const GetOffsetX := MethodRef(ColonistBarAdjuster, Getter(OffsetX))
  const GetOffsetY := MethodRef(ColonistBarAdjuster, Getter(OffsetY))
  const GetBaseScale := MethodRef(ColonistBarAdjuster, Getter(BaseScale))
  const GetHideBackground := MethodRef(ColonistBarAdjuster, Getter(HideBackground))
  const Vector2Multiply := MethodRef(Vector2, OpMultiply)

  /** The labels of a stream, flattened in stream order. */
  function AllLabels(s: seq<Instruction>): seq<Label>
  {
    if s == [] then [] else s[0].labels + AllLabels(s[1..])
  }

  lemma {:induction false} AllLabelsAppend(a: seq<Instruction>, b: seq<Instruction>)
    ensures AllLabels(a + b) == AllLabels(a) + AllLabels(b)
  {
    if a == [] {
      assert a + b == b;
    } else {
      assert (a + b)[1..] == a[1..] + b;
      AllLabelsAppend(a[1..], b);
    }
  }
}
