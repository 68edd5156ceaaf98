/**
 * The emission plan of the lambda proxy class: what `generateInnerClass`
 * hands to the ASM `ClassWriter`, member by member and instruction by
 * instruction, as a function of the call site. Class-file bytes are not
 * modelled; a member is the data of one `visit`/`visitField`/`visitMethod`
 * call and a method body is the list of its `visit*Insn` calls.
 */
module LambdaPlan {
  import opened Wrappers
  import opened Text
  import opened JvmTypes
  import opened Opcodes
  import opened LambdaSite

  // ---------------------------------------------------------------------
  // Access flags (sections 4.1, 4.5 and 4.6 of The Java Virtual Machine Specification) and fixed names
  // ---------------------------------------------------------------------

  const ACC_PUBLIC := 0x0001
  const ACC_PRIVATE := 0x0002
  const ACC_STATIC := 0x0008
  const ACC_FINAL := 0x0010
  const ACC_SUPER := 0x0020
  const ACC_SYNTHETIC := 0x1000

  const JavaLangObject := "java/lang/Object"
  const NameCtor := "<init>"
  const NameClinit := "<clinit>"
  const LambdaInstanceField := "LAMBDA_INSTANCE$"
  const MethodDescriptorVoid := "()V"
  const NameSerializedLambda := "java/lang/invoke/SerializedLambda"
  const NameNotSerializableException := "java/io/NotSerializableException"
  const NameMethodHandle := "java/lang/invoke/MethodHandle"
  const NameWriteReplace := "writeReplace"
  const NameWriteObject := "writeObject"
  const NameReadObject := "readObject"
  const DescrWriteReplace := "()Ljava/lang/Object;"
  const DescrWriteObject := "(Ljava/io/ObjectOutputStream;)V"
  const DescrReadObject := "(Ljava/io/ObjectInputStream;)V"
  const DescrClass := "Ljava/lang/Class;"
  const DescrString := "Ljava/lang/String;"
  const DescrObject := "Ljava/lang/Object;"
  const DescrCtorSerializedLambda := "(" + DescrClass + DescrString + DescrString + DescrString + "I"
    + DescrString + DescrString + DescrString + DescrString + "[" + DescrObject + ")V"
  const DescrCtorNotSerializableException := "(Ljava/lang/String;)V"
  const NonSerializableMessage := "Non-serializable lambda"

  // ---------------------------------------------------------------------
  // Instructions and members
  // ---------------------------------------------------------------------

  /** A constant-pool operand of `ldc`. */
  datatype Constant =
    | StringConst(s: string)
    | IntConst(i: int)
    | ClassConst(className: string)  // `Type.getType(targetClass)`
    | ImplMethodCondy                // the dynamic constant that loads the implementation handle from class data

  /** One `visit*Insn` call on a method visitor. */
  datatype Insn =
    | Op(opcode: int)                                                          // visitInsn
    | TypeOp(opcode: int, typeName: string)                                    // visitTypeInsn
    | VarOp(opcode: int, slot: int)                                            // visitVarInsn
    | FieldOp(opcode: int, owner: string, name: string, desc: string)          // visitFieldInsn
    | Invoke(opcode: int, owner: string, name: string, desc: string, itf: bool) // visitMethodInsn
    | Ldc(c: Constant)                                                         // visitLdcInsn
    | IConst(value: int)                                                       // iconst
    | Convert(from: JType, to: JType, target: JType)                           // convertType, not modelled further
    | Box(desc: string)                                                        // boxIfTypePrimitive, not modelled further

  /** One `visit`, `visitField`, `visitMethod` (with its finished body) or `visitEnd` on the class writer. */
  datatype Member =
    | ClassHeader(access: int, name: string, superName: string, interfaces: seq<string>)
    | Field(access: int, name: string, desc: string)
    | Method(access: int, name: string, desc: string, exceptions: seq<string>, code: seq<Insn>)
    | ClassEnd

  /**
   * The fixed state of one metafactory: the call site, the configuration, the
   * proxy class name and whether the implementation is called through a
   * method handle.
   */
  datatype Proxy = Proxy(site: Site, cfg: Config, className: string, useImplMethodHandle: bool)

  /** The proxy state the constructor establishes for a validated call site. */
  predicate Ready(p: Proxy)
  {
    Validated(p.site) && p.useImplMethodHandle == UseImplMethodHandle(p.site)
  }

  function InternalName(binaryName: string): string
  {
    Replace(binaryName, '.', '/')
  }

  /** The captured values: the parameters of the factory type. */
  function Captures(p: Proxy): seq<JType>
  {
    p.site.factoryType.params
  }

  // ---------------------------------------------------------------------
  // Capture fields
  // ---------------------------------------------------------------------

  /** `"arg$" + (i + 1)`: the name of the field holding the i-th captured value. */
  function ArgName(i: nat): string
  {
    "arg$" + ToDigits(i + 1, 10)
  }

  /** The names of the first n capture fields. */
  function ArgNames(n: nat): (r: seq<string>)
    ensures |r| == n
  {
    if n == 0 then [] else ArgNames(n - 1) + [ArgName(n - 1)]
  }

  function ArgDesc(p: Proxy, i: nat): string
    requires i < |Captures(p)|
  {
    Descriptor(Captures(p)[i])
  }

  /** The first k capture-field declarations, `private final`, in order. */
  function CaptureFields(p: Proxy, k: nat): (r: seq<Member>)
    requires k <= |Captures(p)|
    ensures |r| == k
  {
    if k == 0 then [] else CaptureFields(p, k - 1) + [Field(ACC_PRIVATE + ACC_FINAL, ArgName(k - 1), ArgDesc(p, k - 1))]
  }

  // ---------------------------------------------------------------------
  // Filters over instruction lists, used to state what a body does
  // ---------------------------------------------------------------------

  /** The field an `opcode` field instruction names, if `i` is one. */
  function FieldNameOf(i: Insn, opcode: int): seq<string>
  {
    if i.FieldOp? && i.opcode == opcode then [i.name] else []
  }

  /** The field names of the `opcode` field instructions of `code`, in order. */
  function FieldNames(code: seq<Insn>, opcode: int): seq<string>
  {
    if code == [] then [] else FieldNameOf(code[0], opcode) + FieldNames(code[1..], opcode)
  }

  /** The slot a local-variable instruction above slot 0 (slot 0 holds `this`) names, if `i` is one. */
  function SlotOf(i: Insn): seq<int>
  {
    if i.VarOp? && i.slot > 0 then [i.slot] else []
  }

  /** The slots of the local-variable loads of `code` above slot 0, in order. */
  function ParamSlots(code: seq<Insn>): seq<int>
  {
    if code == [] then [] else SlotOf(code[0]) + ParamSlots(code[1..])
  }

  /** Net operand-stack growth, counting every value a load or push leaves (section 6.5 of The Java Virtual Machine Specification). */
  function StackGrowth(i: Insn): int
  {
    match i
    case VarOp(_, _) => 1
    case TypeOp(op, _) => if op == NEW then 1 else 0
    case Op(op) => if op == DUP then 1 else if op == AASTORE then -3 else 0
    case Ldc(_) => 1
    case IConst(_) => 1
    case FieldOp(op, _, _, _) => if op == PUTFIELD then -2 else if op == PUTSTATIC then -1 else 0
    case _ => 0
  }

  function Depth(code: seq<Insn>): int
  {
    if code == [] then 0 else StackGrowth(code[0]) + Depth(code[1..])
  }

  /** `i` itself if it is a `convertType` step. */
  function ConvertOf(i: Insn): seq<Insn>
  {
    if i.Convert? then [i] else []
  }

  /** The `convertType` steps of `code`, in order. */
  function Conversions(code: seq<Insn>): seq<Insn>
  {
    if code == [] then [] else ConvertOf(code[0]) + Conversions(code[1..])
  }

  /** Slots 1 + Slots(ts[..i]) for the first k of `ts`: where each argument lives. */
  function ArgSlots(ts: seq<JType>, k: nat): (r: seq<int>)
    requires k <= |ts|
    ensures |r| == k
  {
    if k == 0 then [] else ArgSlots(ts, k - 1) + [1 + Slots(ts[..k - 1])]
  }

  // ---------------------------------------------------------------------
  // Constructor
  // ---------------------------------------------------------------------

  /** `factoryType.changeReturnType(void)`. */
  function ConstructorType(s: Site): MethodType
  {
    MethodType(s.factoryType.params, Primitive(Void))
  }

  /** Store of captured value i: `this`, the i-th constructor argument, `putfield arg$(i+1)`. */
  function CtorStore(p: Proxy, i: nat): seq<Insn>
    requires Ready(p) && i < |Captures(p)|
  {
    var t := Captures(p)[i];
    [VarOp(ALOAD, 0), VarOp(LoadOpcode(t).value, 1 + Slots(Captures(p)[..i])),
     FieldOp(PUTFIELD, p.className, ArgName(i), ArgDesc(p, i))]
  }

  function CtorStores(p: Proxy, k: nat): seq<Insn>
    requires Ready(p) && k <= |Captures(p)|
  {
    if k == 0 then [] else CtorStores(p, k - 1) + CtorStore(p, k - 1)
  }

  /** `generateConstructor`'s body: call `Object.<init>`, store every capture, return. */
  function CtorCode(p: Proxy): seq<Insn>
    requires Ready(p)
  {
    [VarOp(ALOAD, 0), Invoke(INVOKESPECIAL, JavaLangObject, NameCtor, MethodDescriptorVoid, false)]
    + CtorStores(p, |Captures(p)|)
    + [Op(RETURN)]
  }

  // ---------------------------------------------------------------------
  // Class initializer
  // ---------------------------------------------------------------------

  /** The static singleton field and the `<clinit>` that fills it. */
  function ClassInitializer(p: Proxy): seq<Member>
  {
    var desc := Descriptor(p.site.factoryType.ret);
    [ Field(ACC_PRIVATE + ACC_STATIC + ACC_FINAL, LambdaInstanceField, desc),
      Method(ACC_STATIC, NameClinit, MethodDescriptorVoid, [],
        [ TypeOp(NEW, p.className), Op(DUP),
          Invoke(INVOKESPECIAL, p.className, NameCtor, MethodDescriptor(ConstructorType(p.site)), false),
          FieldOp(PUTSTATIC, p.className, LambdaInstanceField, desc),
          Op(RETURN) ]) ]
  }

  // ---------------------------------------------------------------------
  // Forwarders
  // ---------------------------------------------------------------------

  /** The signatures a forwarder may be generated for. */
  predicate Forwardable(p: Proxy, mt: MethodType)
  {
    WellFormedMethodType(mt) && |mt.params| == |p.site.interfaceMethodType.params|
  }

  /** Push of captured value i: `aload_0; getfield arg$(i+1)`. */
  function CaptureLoad(p: Proxy, i: nat): seq<Insn>
    requires i < |Captures(p)|
  {
    [VarOp(ALOAD, 0), FieldOp(GETFIELD, p.className, ArgName(i), ArgDesc(p, i))]
  }

  function CaptureLoads(p: Proxy, k: nat): seq<Insn>
    requires k <= |Captures(p)|
  {
    if k == 0 then [] else CaptureLoads(p, k - 1) + CaptureLoad(p, k - 1)
  }

  /**
   * SAM parameter i is loaded from slot 1 + the sizes of the earlier
   * parameters and converted toward implementation parameter
   * captureArity + i.
   */
  function ArgConversion(p: Proxy, mt: MethodType, i: nat): seq<Insn>
    requires Ready(p) && Forwardable(p, mt) && i < |mt.params|
  {
    var t := mt.params[i];
    [ VarOp(LoadOpcode(t).value, 1 + Slots(mt.params[..i])),
      Convert(t, p.site.implMethodType.params[|Captures(p)| + i], p.site.dynamicMethodType.params[i]) ]
  }

  /** `convertArgumentTypes`: the first k SAM parameters, in order. */
  function ArgConversions(p: Proxy, mt: MethodType, k: nat): seq<Insn>
    requires Ready(p) && Forwardable(p, mt) && k <= |mt.params|
  {
    if k == 0 then [] else ArgConversions(p, mt, k - 1) + ArgConversion(p, mt, k - 1)
  }

  /** The type `invokeExact` is called with: the implementation's own type, with the receiver first unless static. */
  function InvokeExactType(s: Site): MethodType
  {
    if s.implKind != REF_invokeStatic
    then MethodType([Ref(s.implClass.name)] + s.impl.methodType.params, s.impl.methodType.ret)
    else s.impl.methodType
  }

  /** The call of the implementation: through the handle, or with the kind's own invoke instruction. */
  function ImplCall(p: Proxy): Insn
    requires Ready(p)
  {
    if p.useImplMethodHandle then
      Invoke(INVOKEVIRTUAL, NameMethodHandle, "invokeExact", MethodDescriptor(InvokeExactType(p.site)), false)
    else
      Invoke(InvocationOpcode(p.site.implKind).value, InternalName(p.site.implClass.name),
             p.site.impl.name, MethodDescriptor(p.site.impl.methodType), p.site.implClass.isInterface)
  }

  /** Receiver set-up for a constructor (`new`, `dup`) and the handle when the implementation is called through one. */
  function ForwarderPrelude(p: Proxy): seq<Insn>
  {
    (if p.site.implKind == REF_newInvokeSpecial then [TypeOp(NEW, InternalName(p.site.implClass.name)), Op(DUP)] else [])
    + (if p.useImplMethodHandle then [Ldc(ImplMethodCondy)] else [])
  }

  /** What a forwarder pushes before the call: the prelude, the captures, the arguments. */
  function ForwarderArgs(p: Proxy, mt: MethodType): seq<Insn>
    requires Ready(p) && Forwardable(p, mt)
  {
    ForwarderPrelude(p) + CaptureLoads(p, |Captures(p)|) + ArgConversions(p, mt, |mt.params|)
  }

  /** The call, the conversion of its result to the SAM return type, and the typed return. */
  function ForwarderTail(p: Proxy, mt: MethodType): seq<Insn>
    requires Ready(p)
  {
    [ ImplCall(p), Convert(p.site.implMethodType.ret, mt.ret, mt.ret), Op(ReturnOpcode(mt.ret)) ]
  }

  /** `ForwardingMethodGenerator.generate(mt)`. */
  function ForwarderCode(p: Proxy, mt: MethodType): seq<Insn>
    requires Ready(p) && Forwardable(p, mt)
  {
    ForwarderArgs(p, mt) + ForwarderTail(p, mt)
  }

  function Forwarder(p: Proxy, mt: MethodType): Member
    requires Ready(p) && Forwardable(p, mt)
  {
    Method(ACC_PUBLIC, p.site.interfaceMethodName, MethodDescriptor(mt), [], ForwarderCode(p, mt))
  }

  /** The forwarders of the first k bridge signatures. */
  function AltForwarders(p: Proxy, k: nat): (r: seq<Member>)
    requires Ready(p) && k <= |p.site.altMethods|
    ensures |r| == k
  {
    if k == 0 then [] else AltForwarders(p, k - 1) + [Forwarder(p, p.site.altMethods[k - 1])]
  }

  // ---------------------------------------------------------------------
  // Serialization support
  // ---------------------------------------------------------------------

  /** Interface lists that make the lambda serializable by accident rather than by request. */
  predicate AccidentallySerializable(s: Site)
  {
    !s.isSerializable
    && (s.interfaceClass.serializable || exists k :: 0 <= k < |s.altInterfaces| && s.altInterfaces[k].serializable)
  }

  /** Box and store of captured value i into the argument array: `array[i] = box(this.arg$(i+1))`. */
  function CaptureStore(p: Proxy, i: nat): seq<Insn>
    requires i < |Captures(p)|
  {
    [ Op(DUP), IConst(i), VarOp(ALOAD, 0), FieldOp(GETFIELD, p.className, ArgName(i), ArgDesc(p, i)),
      Box(ArgDesc(p, i)), Op(AASTORE) ]
  }

  function CaptureStores(p: Proxy, k: nat): seq<Insn>
    requires k <= |Captures(p)|
  {
    if k == 0 then [] else CaptureStores(p, k - 1) + CaptureStore(p, k - 1)
  }

  /** The site as `SerializedLambda`'s constructor takes it, one `ldc` constant per argument. */
  function SerializedLambdaConstants(p: Proxy): seq<Constant>
  {
    var s := p.site;
    [ ClassConst(s.targetClass.name),
      StringConst(InternalName(Name(s.factoryType.ret))),
      StringConst(s.interfaceMethodName),
      StringConst(MethodDescriptor(s.interfaceMethodType)),
      IntConst(s.impl.kind),
      StringConst(InternalName(s.impl.declaringClass.name)),
      StringConst(s.impl.name),
      StringConst(MethodDescriptor(s.impl.methodType)),
      StringConst(MethodDescriptor(s.dynamicMethodType)) ]
  }

  function Ldcs(cs: seq<Constant>): (r: seq<Insn>)
    ensures |r| == |cs| && forall i :: 0 <= i < |cs| ==> r[i] == Ldc(cs[i])
  {
    seq(|cs|, i requires 0 <= i < |cs| => Ldc(cs[i]))
  }

  /** Everything `writeReplace` pushes before the captures: the new object, the site, and the array. */
  function SerializedLambdaArgs(p: Proxy): seq<Insn>
  {
    [TypeOp(NEW, NameSerializedLambda), Op(DUP)]
    + Ldcs(SerializedLambdaConstants(p))
    + [IConst(|Captures(p)|), TypeOp(ANEWARRAY, JavaLangObject)]
  }

  /** `writeReplace`: a `SerializedLambda` describing the site, with the captures boxed into an array. */
  function WriteReplaceCode(p: Proxy): seq<Insn>
  {
    SerializedLambdaArgs(p)
    + CaptureStores(p, |Captures(p)|)
    + [ Invoke(INVOKESPECIAL, NameSerializedLambda, NameCtor, DescrCtorSerializedLambda, false),
        Op(ARETURN) ]
  }

  function SerializationFriendly(p: Proxy): seq<Member>
  {
    [Method(ACC_PRIVATE + ACC_FINAL, NameWriteReplace, DescrWriteReplace, [], WriteReplaceCode(p))]
  }

  /** The body of both hostile methods: throw `NotSerializableException`. */
  const HostileCode: seq<Insn> :=
    [ TypeOp(NEW, NameNotSerializableException), Op(DUP),
      Ldc(StringConst(NonSerializableMessage)),
      Invoke(INVOKESPECIAL, NameNotSerializableException, NameCtor, DescrCtorNotSerializableException, false),
      Op(ATHROW) ]

  const SerializationHostile: seq<Member> :=
    [ Method(ACC_PRIVATE + ACC_FINAL, NameWriteObject, DescrWriteObject, [NameNotSerializableException], HostileCode),
      Method(ACC_PRIVATE + ACC_FINAL, NameReadObject, DescrReadObject, [NameNotSerializableException], HostileCode) ]

  // ---------------------------------------------------------------------
  // Interfaces
  // ---------------------------------------------------------------------

  /** The elements of `xs` in first-occurrence order, as a `LinkedHashSet` keeps them. */
  function Dedup<T(==)>(xs: seq<T>): seq<T>
  {
    if xs == [] then []
    else
      var d := Dedup(xs[..|xs| - 1]);
      if xs[|xs| - 1] in d then d else d + [xs[|xs| - 1]]
  }

  /** Adding to the end of the list adds to the end of the set, unless already there. */
  lemma DedupSnoc<T>(xs: seq<T>, x: T)
    ensures Dedup(xs + [x]) == if x in Dedup(xs) then Dedup(xs) else Dedup(xs) + [x]
  {
    assert (xs + [x])[..|xs|] == xs;
  }

  /** One more alternate interface: its name is added to the deduplicated list unless already there. */
  lemma InterfaceListSnoc(primary: string, cs: seq<ClassInfo>, k: nat)
    requires k < |cs|
    ensures var d := Dedup([primary] + AltNames(cs[..k]));
            var x := InternalName(cs[k].name);
            Dedup([primary] + AltNames(cs[..k + 1])) == if x in d then d else d + [x]
  {
    var x := InternalName(cs[k].name);
    AltNamesSnoc(cs, k);
    assert [primary] + AltNames(cs[..k + 1]) == ([primary] + AltNames(cs[..k])) + [x];
    DedupSnoc([primary] + AltNames(cs[..k]), x);
  }

  /** Position of the first occurrence of `x` in `xs`. */
  function FirstIndex<T(==)>(xs: seq<T>, x: T): (k: nat)
    requires x in xs
    ensures k < |xs| && xs[k] == x && x !in xs[..k]
  {
    if xs[0] == x then 0 else 1 + FirstIndex(xs[1..], x)
  }

  /** `generateInnerClass`'s interface list, in internal form. */
  function InterfaceNames(s: Site): seq<string>
  {
    var primary := InternalName(s.interfaceClass.name);
    if |s.altInterfaces| == 0 then [primary]
    else Dedup([primary] + AltNames(s.altInterfaces))
  }

  function AltNames(cs: seq<ClassInfo>): (r: seq<string>)
    ensures |r| == |cs| && forall i :: 0 <= i < |cs| ==> r[i] == InternalName(cs[i].name)
  {
    if cs == [] then [] else [InternalName(cs[0].name)] + AltNames(cs[1..])
  }

  lemma AltNamesSnoc(cs: seq<ClassInfo>, k: nat)
    requires k < |cs|
    ensures AltNames(cs[..k + 1]) == AltNames(cs[..k]) + [InternalName(cs[k].name)]
  {
    var a := AltNames(cs[..k + 1]);
    var b := AltNames(cs[..k]) + [InternalName(cs[k].name)];
    forall i | 0 <= i < |a|
      ensures a[i] == b[i]
    {
      if i < k {
        assert cs[..k + 1][i] == cs[..k][i];
      }
    }
  }

  // ---------------------------------------------------------------------
  // The whole class
  // ---------------------------------------------------------------------

  const ClassAccess := ACC_SUPER + ACC_FINAL + ACC_SYNTHETIC

  /** Whether the proxy gets the static singleton instead of being instantiated by the call site. */
  predicate HasClassInitializer(p: Proxy)
  {
    |Captures(p)| == 0 && p.cfg.disableEagerInitialization
  }

  /** The class header, the capture fields and the constructor. */
  function PlanFront(p: Proxy): seq<Member>
    requires Ready(p)
  {
    [ClassHeader(ClassAccess, p.className, JavaLangObject, InterfaceNames(p.site))]
    + CaptureFields(p, |Captures(p)|)
    + [Method(ACC_PRIVATE, NameCtor, MethodDescriptor(ConstructorType(p.site)), [], CtorCode(p))]
  }

  function InitializerMembers(p: Proxy): seq<Member>
  {
    if HasClassInitializer(p) then ClassInitializer(p) else []
  }

  /** The interface method's forwarder, then one per bridge signature. */
  function Forwarders(p: Proxy): seq<Member>
    requires Ready(p)
  {
    [Forwarder(p, p.site.interfaceMethodType)] + AltForwarders(p, |p.site.altMethods|)
  }

  function SerializationMembers(p: Proxy): seq<Member>
  {
    if p.site.isSerializable then SerializationFriendly(p)
    else if AccidentallySerializable(p.site) then SerializationHostile
    else []
  }

  /** Everything `generateInnerClass` visits, in order. */
  function ClassPlan(p: Proxy): seq<Member>
    requires Ready(p)
  {
    PlanFront(p) + InitializerMembers(p) + Forwarders(p) + SerializationMembers(p) + [ClassEnd]
  }

  predicate IsMethod(m: Member, access: int, name: string)
  {
    m.Method? && m.access == access && m.name == name
  }

  predicate IsField(m: Member, access: int, name: string)
  {
    m.Field? && m.access == access && m.name == name
  }

  /** Whether `plan` declares a field with these flags and name. */
  predicate HasField(plan: seq<Member>, access: int, name: string)
  {
    exists m :: m in plan && IsField(m, access, name)
  }

  /** Whether `plan` has a method with these flags and name. */
  predicate HasMethod(plan: seq<Member>, access: int, name: string)
  {
    exists m :: m in plan && IsMethod(m, access, name)
  }

}
