/**
 * The bytecode helper maps of the lambda metafactory: local-variable slot
 * sizes (section 2.6.1 of The Java Virtual Machine Specification), the
 * typed load and return opcode families (section 6.5 of The Java Virtual
 * Machine Specification) and the invoke instruction for each method-handle
 * kind (section 5.4.3.5 of The Java Virtual Machine Specification).
 */
module Opcodes {
  import opened Wrappers
  import opened JvmTypes

  // Opcode values, section 6.5 of The Java Virtual Machine Specification.
  const AASTORE := 83
  const DUP := 89
  const ILOAD := 21
  const LLOAD := 22
  const FLOAD := 23
  const DLOAD := 24
  const ALOAD := 25
  const IRETURN := 172
  const LRETURN := 173
  const FRETURN := 174
  const DRETURN := 175
  const ARETURN := 176
  const RETURN := 177
  const PUTSTATIC := 179
  const GETFIELD := 180
  const PUTFIELD := 181
  const INVOKEVIRTUAL := 182
  const INVOKESPECIAL := 183
  const INVOKESTATIC := 184
  const INVOKEINTERFACE := 185
  const NEW := 187
  const ANEWARRAY := 189
  const ATHROW := 191

  // Method handle reference kinds, section 5.4.3.5 of The Java Virtual Machine Specification (`MethodHandleInfo.REF_*`).
  const REF_invokeVirtual := 5
  const REF_invokeStatic := 6
  const REF_invokeSpecial := 7
  const REF_newInvokeSpecial := 8
  const REF_invokeInterface := 9

  /**
   * The computational type a value of type `t` has on the operand stack and in
   * a local variable (section 2.11.1 of The Java Virtual Machine Specification): boolean, byte, char, short and int all
   * compute as int, everything that is not primitive as a reference.
   */
  datatype Computational = CInt | CLong | CFloat | CDouble | CReference

  function ComputationalOf(t: JType): Computational
    requires t != Primitive(Void)
  {
    match t
    case Primitive(p) =>
      if p == Long then CLong else if p == Float then CFloat else if p == Double then CDouble else CInt
    case _ => CReference
  }

  /** The load instruction of each computational type (section 6.5 of The Java Virtual Machine Specification: iload, lload, fload, dload, aload). */
  function LoadOf(c: Computational): int
  {
    match c
    case CInt => ILOAD
    case CLong => LLOAD
    case CFloat => FLOAD
    case CDouble => DLOAD
    case CReference => ALOAD
  }

  /** The return instruction of each computational type (section 6.5 of The Java Virtual Machine Specification: ireturn, lreturn, freturn, dreturn, areturn). */
  function ReturnOf(c: Computational): int
  {
    match c
    case CInt => IRETURN
    case CLong => LRETURN
    case CFloat => FRETURN
    case CDouble => DRETURN
    case CReference => ARETURN
  }

  /** `getParameterSize`: local-variable slots taken by a value of type `t`. */
  function ParameterSize(t: JType): (n: nat)
    ensures n <= 2
    ensures n == 0 <==> t == Primitive(Void)
  {
    if t == Primitive(Void) then 0
    else if t == Primitive(Long) || t == Primitive(Double) then 2
    else 1
  }

  /** `getOpcodeOffset`: position of `t`'s family member after the int form. */
  function OpcodeOffset(t: JType): (k: nat)
    ensures k <= 4
  {
    if t.Primitive? then
      if t == Primitive(Long) then 1
      else if t == Primitive(Float) then 2
      else if t == Primitive(Double) then 3
      else 0
    else 4
  }

  /** `getLoadOpcode`: `void` has no load instruction (an `InternalError`). */
  function LoadOpcode(t: JType): (r: Result<int>)
    ensures r.Failure? <==> t == Primitive(Void)
    ensures r.Success? ==> ILOAD <= r.value <= ALOAD
    ensures t != Primitive(Void) ==> r == Success(LoadOf(ComputationalOf(t)))
  {
    if t == Primitive(Void) then Failure("Unexpected void type of load opcode")
    else Success(ILOAD + OpcodeOffset(t))
  }

  /** `getReturnOpcode`: `return` for void, else the typed return. */
  function ReturnOpcode(t: JType): (op: int)
    ensures IRETURN <= op <= RETURN
    ensures op == RETURN <==> t == Primitive(Void)
    ensures t != Primitive(Void) ==> op == ReturnOf(ComputationalOf(t))
  {
    if t == Primitive(Void) then RETURN else IRETURN + OpcodeOffset(t)
  }

  /** `invocationOpcode`: the invoke instruction for an implementation method kind. */
  function InvocationOpcode(kind: int): (r: Result<int>)
    ensures r.Success? <==> REF_invokeVirtual <= kind <= REF_invokeInterface
    ensures r.Success? ==> INVOKEVIRTUAL <= r.value <= INVOKEINTERFACE
  {
    if kind == REF_invokeStatic then Success(INVOKESTATIC)
    else if kind == REF_newInvokeSpecial then Success(INVOKESPECIAL)
    else if kind == REF_invokeVirtual then Success(INVOKEVIRTUAL)
    else if kind == REF_invokeInterface then Success(INVOKEINTERFACE)
    else if kind == REF_invokeSpecial then Success(INVOKESPECIAL)
    else Failure("Unexpected invocation kind: " + (if kind < 0 then "-" + Text.ToDigits(-kind, 10) else Text.ToDigits(kind, 10)))
  }

  /** Which kinds share an instruction: only the two special kinds, both `invokespecial`. */
  lemma InvocationOpcodePreimage(kind: int)
    ensures InvocationOpcode(kind) == Success(INVOKESTATIC) <==> kind == REF_invokeStatic
    ensures InvocationOpcode(kind) == Success(INVOKEVIRTUAL) <==> kind == REF_invokeVirtual
    ensures InvocationOpcode(kind) == Success(INVOKEINTERFACE) <==> kind == REF_invokeInterface
    ensures InvocationOpcode(kind) == Success(INVOKESPECIAL)
            <==> kind == REF_invokeSpecial || kind == REF_newInvokeSpecial
  {
  }

  /** Section 2.6.1 of The Java Virtual Machine Specification: exactly the category-2 types long and double take two slots. */
  lemma ParameterSizeByCategory(t: JType)
    requires t != Primitive(Void)
    ensures ParameterSize(t) == (if ComputationalOf(t) in {CLong, CDouble} then 2 else 1)
  {
  }

  /**
   * Loads and returns are chosen from the same family position, and two types
   * share a load opcode exactly when they share a computational type.
   */
  lemma LoadOpcodeByComputational(t: JType, u: JType)
    requires t != Primitive(Void) && u != Primitive(Void)
    ensures LoadOpcode(t).value - ILOAD == ReturnOpcode(t) - IRETURN
    ensures LoadOpcode(t) == LoadOpcode(u) <==> ComputationalOf(t) == ComputationalOf(u)
  {
  }

  /** The slots taken by the values of `ts` laid out one after another. */
  function Slots(ts: seq<JType>): nat
  {
    if ts == [] then 0 else Slots(ts[..|ts| - 1]) + ParameterSize(ts[|ts| - 1])
  }

  /**
   * With no `void` among them, the parameters of a method occupy disjoint,
   * increasing slot ranges: parameter i lives at 1 + Slots(ts[..i]) (slot 0
   * holds `this`), and the next parameter starts right after it.
   */
  lemma {:induction false} SlotsIncrease(ts: seq<JType>, i: nat, j: nat)
    requires forall k :: 0 <= k < |ts| ==> ts[k] != Primitive(Void)
    requires i < j <= |ts|
    ensures Slots(ts[..i]) + ParameterSize(ts[i]) <= Slots(ts[..j])
    ensures i + 1 == j ==> Slots(ts[..i]) + ParameterSize(ts[i]) == Slots(ts[..j])
    ensures Slots(ts[..j]) <= 2 * j
    decreases j
  {
    assert ts[..j][..j - 1] == ts[..j - 1];
    if j == i + 1 {
      assert ts[..j][j - 1] == ts[i];
      if j - 1 > 0 {
        SlotsIncrease(ts, j - 2, j - 1);
      }
    } else {
      SlotsIncrease(ts, i, j - 1);
      assert Slots(ts[..j]) == Slots(ts[..j - 1]) + ParameterSize(ts[j - 1]);
    }
  }
}
