/**
 * `InnerClassLambdaMetafactory` as an object: its constructor derives the
 * proxy's fixed state and fills the capture-name arrays, its `generate*`
 * methods hand members to a class writer one after another, and
 * `spinInnerClass`/`buildCallSite` choose between the archive, a fresh class
 * and the three ways of linking the call site. Each method is proved to emit
 * exactly the emission plan of `LambdaPlan`.
 */
module LambdaMetafactory {
  import opened Wrappers
  import opened Text
  import opened JvmTypes
  import opened Opcodes
  import opened LambdaSite
  import opened LambdaNaming
  import opened LambdaPlan
  import opened LambdaLinkage

  /** A method visitor reduced to the instructions it is handed, in order. */
  class MethodWriter {
    var code: seq<Insn>

    constructor ()
      ensures code == []
    {
      code := [];
    }

    method Visit(i: Insn)
      modifies this
      ensures code == old(code) + [i]
    {
      code := code + [i];
    }
  }

  /** The ASM `ClassWriter` reduced to the members it is handed, in order. */
  class ClassWriter {
    var members: seq<Member>

    constructor ()
      ensures members == []
    {
      members := [];
    }

    method Visit(m: Member)
      modifies this
      ensures members == old(members) + [m]
    {
      members := members + [m];
    }
  }

  /** `LinkedHashSet<String>`: keeps the order of first insertion and ignores repeats. */
  class LinkedHashSet {
    var elems: seq<string>

    constructor ()
      ensures elems == []
    {
      elems := [];
    }

    method Add(x: string)
      modifies this
      ensures elems == if x in old(elems) then old(elems) else old(elems) + [x]
    {
      if x !in elems {
        elems := elems + [x];
      }
    }
  }

  /**
   * The constructor's loop over the captured types: `argNames[i] = "arg$" + (i + 1)`
   * and `argDescs[i]` is the descriptor of type i. With nothing captured both
   * are the one shared empty array.
   */
  method NewArgArrays(params: seq<JType>) returns (names: array<string>, descs: array<string>)
    ensures fresh(names) && fresh(descs)
    ensures names.Length == |params| && descs.Length == |params|
    ensures forall i :: 0 <= i < names.Length ==> names[i] == ArgName(i)
    ensures forall i :: 0 <= i < descs.Length ==> descs[i] == Descriptor(params[i])
    ensures |params| == 0 ==> names == descs
  {
    var parameterCount := |params|;
    if parameterCount > 0 {
      names := new string[parameterCount];
      descs := new string[parameterCount];
      for i := 0 to parameterCount
        invariant forall j :: 0 <= j < i ==> names[j] == ArgName(j)
        invariant forall j :: 0 <= j < i ==> descs[j] == Descriptor(params[j])
      {
        names[i] := "arg$" + ToDigits(i + 1, 10);
        descs[i] := Descriptor(params[i]);
      }
    } else {
      names := new string[0];
      descs := names;
    }
  }

  /** `LambdaProxyClassArchive`: the proxy classes of the CDS archive, by the site they were spun for. */
  class LambdaProxyClassArchive {
    var classes: map<ArchiveKey, HiddenClass>

    constructor (classes: map<ArchiveKey, HiddenClass>)
      ensures this.classes == classes
    {
      this.classes := classes;
    }

    /** `find`: the archived class for this key, if any. */
    method Find(key: ArchiveKey) returns (c: Option<HiddenClass>)
      ensures c.Some? <==> key in classes
      ensures c.Some? ==> c.value == classes[key]
    {
      if key in classes {
        c := Some(classes[key]);
      } else {
        c := None;
      }
    }

    /** `register`: record the class generated for this key. */
    method Register(key: ArchiveKey, c: HiddenClass)
      modifies this
      ensures classes == old(classes)[key := c]
    {
      classes := classes[key := c];
    }
  }

  class InnerClassLambdaMetafactory {
    const site: Site
    const cfg: Config
    const lambdaClassName: string
    const useImplMethodHandle: bool
    const argNames: array<string>
    const argDescs: array<string>
    const cw: ClassWriter

    /** The fixed state the emission plan is a function of. */
    function State(): Proxy
    {
      Proxy(site, cfg, lambdaClassName, useImplMethodHandle)
    }

    ghost predicate Valid()
      reads argNames, argDescs
    {
      && Ready(State())
      && argNames.Length == |Captures(State())|
      && argDescs.Length == |Captures(State())|
      && (forall i :: 0 <= i < argNames.Length ==> argNames[i] == ArgName(i))
      && (forall i :: 0 <= i < argDescs.Length ==> argDescs[i] == ArgDesc(State(), i))
    }

    /**
     * The metafactory's constructor: picks the class name, decides whether
     * the implementation is called through its handle, and fills
     * `argNames[i] = "arg$" + (i + 1)` and `argDescs[i]` with the descriptor of
     * the i-th captured type. With nothing captured both are the one empty array.
     */
    constructor (site: Site, cfg: Config)
      requires Validated(site)
      ensures this.site == site && this.cfg == cfg
      ensures lambdaClassName == if cfg.generateStableLambdaNames then StableName(site) else CreateNameFromTargetClass(site.targetClass)
      ensures useImplMethodHandle == UseImplMethodHandle(site)
      ensures Valid()
      ensures fresh(cw) && cw.members == []
      ensures |site.factoryType.params| == 0 ==> argNames == argDescs
    {
      this.site := site;
      this.cfg := cfg;
      useImplMethodHandle := (IsProtected(site.impl.modifiers) && !site.samePackage)
                             || site.implKind == REF_invokeSpecial;
      cw := new ClassWriter();
      var names, descs := NewArgArrays(site.factoryType.params);
      argNames := names;
      argDescs := descs;
      var name;
      if cfg.generateStableLambdaNames {
        name := StableLambdaClassName(site);
      } else {
        name := CreateNameFromTargetClass(site.targetClass);
      }
      lambdaClassName := name;
    }

    // -------------------------------------------------------------------
    // Spinning the class and linking the call site
    // -------------------------------------------------------------------

    /**
     * `buildCallSite`: spin the class, then link the call site through the
     * static getter, one shared instance, or the adapted constructor; a
     * failed lookup becomes a `LambdaConversionException`, except a
     * non-reflective throwable of the getter, which passes through.
     */
    method BuildCallSite(archive: LambdaProxyClassArchive, linker: Linker) returns (r: Linkage)
      requires Valid() && cw.members == []
      modifies cw, archive
      ensures r == BuildCallSiteFor(State(), old(archive.classes), linker)
      ensures archive.classes == if SpinThrows(State(), old(archive.classes), linker.defines) then old(archive.classes)
                                 else ArchiveAfterSpin(State(), old(archive.classes))
      ensures cw.members == if ArchiveHit(State(), old(archive.classes)) then [] else ClassPlan(State())
    {
      var spun := SpinInnerClass(archive, linker.defines);
      if spun.None? {
        return InternalError;
      }
      var innerClass := spun.value;
      if |site.factoryType.params| == 0 && cfg.disableEagerInitialization {
        match linker.getter {
          case Normal => r := Linked(StaticGetter(innerClass.name, LambdaInstanceField, site.factoryType.ret));
          case ThrowsReflective => r := Rejected("Exception finding " + LambdaInstanceField + " static field");
          case ThrowsOther => r := Propagated;
        }
      } else if linker.findConstructor == ThrowsReflective {
        r := Rejected("Exception finding constructor");
      } else if linker.findConstructor == ThrowsOther {
        r := Rejected("Exception instantiating lambda object");
      } else if linker.adapt == ThrowsReflective {
        r := Rejected("Exception finding constructor");
      } else if linker.adapt == ThrowsOther {
        r := Rejected("Exception instantiating lambda object");
      } else if |site.factoryType.params| == 0 {
        r := Linked(ConstantInstance(site.interfaceClass, innerClass.name));
      } else {
        r := Linked(ConstructorHandle(innerClass.name, ConstructorType(site), site.factoryType));
      }
    }

    /**
     * `spinInnerClass`: a lambda that CDS can hold is first looked up in the
     * archive when sharing is on, and generated and registered when an
     * archive is being dumped; anything else is generated. `None` stands for
     * the `InternalError` of a failed definition, which leaves the archive
     * as it was.
     */
    method SpinInnerClass(archive: LambdaProxyClassArchive, defines: bool) returns (innerClass: Option<HiddenClass>)
      requires Valid() && cw.members == []
      modifies cw, archive
      ensures innerClass == if SpinThrows(State(), old(archive.classes), defines) then None
                            else Some(SpunClass(State(), old(archive.classes)))
      ensures archive.classes == if SpinThrows(State(), old(archive.classes), defines) then old(archive.classes)
                                 else ArchiveAfterSpin(State(), old(archive.classes))
      ensures cw.members == if ArchiveHit(State(), old(archive.classes)) then [] else ClassPlan(State())
    {
      if !cfg.disableEagerInitialization && !useImplMethodHandle {
        if cfg.sharingEnabled {
          var found := archive.Find(KeyOf(site));
          if found.Some? {
            return found;
          }
        }
        if cfg.dumpingArchive {
          innerClass := GenerateInnerClass(defines);
          if innerClass.Some? {
            archive.Register(KeyOf(site), innerClass.value);
          }
          return;
        }
      }
      innerClass := GenerateInnerClass(defines);
    }

    // -------------------------------------------------------------------
    // The whole class (`generateInnerClass`)
    // -------------------------------------------------------------------

    /**
     * `generateInnerClass`: the header, the capture fields, the constructor,
     * the singleton when eager initialization is off and nothing is captured,
     * the forwarders, the serialization members and the end, handed to `cw`
     * in that order; then the class is defined as a hidden nestmate, unless
     * `defineClass` throws (`None`, the `InternalError`).
     */
    method GenerateInnerClass(defines: bool) returns (c: Option<HiddenClass>)
      requires Valid() && cw.members == []
      modifies cw
      ensures cw.members == ClassPlan(State())
      ensures c == if defines then Some(DefinedClass(State())) else None
    {
      var p := State();
      var interfaceNames, accidentallySerializable := CollectInterfaces();
      GenerateFront(interfaceNames);
      GenerateInitializerMembers();
      GenerateForwarders();
      GenerateSerializationMembers(accidentallySerializable);
      cw.Visit(ClassEnd);
      assert [] + PlanFront(p) == PlanFront(p);
      if defines {
        var classData := if useImplMethodHandle then Some(site.impl) else None;
        c := Some(HiddenClass(lambdaClassName, cw.members, !cfg.disableEagerInitialization, classData));
      } else {
        c := None;
      }
    }

    /** The start of `generateInnerClass`'s output: the header, one field per capture, the constructor. */
    method GenerateFront(interfaceNames: seq<string>)
      requires Valid() && interfaceNames == InterfaceNames(site)
      modifies cw
      ensures cw.members == old(cw.members) + PlanFront(State())
    {
      var p := State();
      ghost var header := [ClassHeader(ClassAccess, lambdaClassName, JavaLangObject, interfaceNames)];
      cw.Visit(ClassHeader(ClassAccess, lambdaClassName, JavaLangObject, interfaceNames));
      VisitCaptureFields();
      ghost var fields := CaptureFields(p, |Captures(p)|);
      ghost var ctor := [Method(ACC_PRIVATE, NameCtor, MethodDescriptor(ConstructorType(site)), [], CtorCode(p))];
      GenerateConstructor();
      assert cw.members == ((old(cw.members) + header) + fields) + ctor;
      Assoc(old(cw.members), header, fields);
      Assoc(old(cw.members), header + fields, ctor);
    }

    /** The singleton and its initializer, for a non-capturing lambda when eager initialization is disabled. */
    method GenerateInitializerMembers()
      requires Valid()
      modifies cw
      ensures cw.members == old(cw.members) + InitializerMembers(State())
    {
      if |site.factoryType.params| == 0 && cfg.disableEagerInitialization {
        GenerateClassInitializer();
      }
    }

    /** The interface method's forwarder and the bridges' forwarders. */
    method GenerateForwarders()
      requires Valid()
      modifies cw
      ensures cw.members == old(cw.members) + Forwarders(State())
    {
      var p := State();
      GenerateForwarder(site.interfaceMethodType);
      GenerateAltForwarders();
      Assoc(old(cw.members), [Forwarder(p, site.interfaceMethodType)], AltForwarders(p, |site.altMethods|));
    }

    /** `writeReplace` when serialization is asked for, the throwing pair when it happens by accident. */
    method GenerateSerializationMembers(accidentallySerializable: bool)
      requires Valid() && accidentallySerializable == AccidentallySerializable(site)
      modifies cw
      ensures cw.members == old(cw.members) + SerializationMembers(State())
    {
      if site.isSerializable {
        GenerateSerializationFriendlyMethods();
      } else if accidentallySerializable {
        GenerateSerializationHostileMethods();
      }
    }

    /**
     * The interface list of `generateInnerClass` without repeats (a repeat is
     * a `ClassFormatError`), and whether one of the interfaces is
     * `Serializable` although serialization was not asked for.
     */
    method CollectInterfaces() returns (interfaceNames: seq<string>, accidentallySerializable: bool)
      ensures interfaceNames == InterfaceNames(site)
      ensures accidentallySerializable == AccidentallySerializable(site)
    {
      var interfaceName := InternalName(site.interfaceClass.name);
      accidentallySerializable := !site.isSerializable && site.interfaceClass.serializable;
      var altInterfaces := site.altInterfaces;
      if |altInterfaces| == 0 {
        interfaceNames := [interfaceName];
      } else {
        var itfs := new LinkedHashSet();
        itfs.Add(interfaceName);
        assert [interfaceName] + AltNames(altInterfaces[..0]) == [interfaceName];
        for k := 0 to |altInterfaces|
          invariant itfs.elems == Dedup([interfaceName] + AltNames(altInterfaces[..k]))
          invariant accidentallySerializable
            == (!site.isSerializable && (site.interfaceClass.serializable || exists j :: 0 <= j < k && altInterfaces[j].serializable))
        {
          InterfaceListSnoc(interfaceName, altInterfaces, k);
          itfs.Add(InternalName(altInterfaces[k].name));
          accidentallySerializable := accidentallySerializable || (!site.isSerializable && altInterfaces[k].serializable);
          if altInterfaces[k].serializable {
            assert 0 <= k < k + 1 && altInterfaces[k].serializable;
          } else {
            assert forall j :: 0 <= j < k + 1 && altInterfaces[j].serializable ==> j < k;
          }
        }
        assert altInterfaces[..|altInterfaces|] == altInterfaces;
        interfaceNames := itfs.elems;
      }
    }

    /** The `private final` field of every capture, in order. */
    method VisitCaptureFields()
      requires Valid()
      modifies cw
      ensures cw.members == old(cw.members) + CaptureFields(State(), |Captures(State())|)
    {
      var p := State();
      for i := 0 to argDescs.Length
        invariant cw.members == old(cw.members) + CaptureFields(p, i)
      {
        cw.Visit(Field(ACC_PRIVATE + ACC_FINAL, argNames[i], argDescs[i]));
        Assoc(old(cw.members), CaptureFields(p, i), [Field(ACC_PRIVATE + ACC_FINAL, ArgName(i), ArgDesc(p, i))]);
      }
    }

    /** `visitMethod` of a `public` forwarder for `methodType`, its body from `generate`. */
    method GenerateForwarder(methodType: MethodType)
      requires Valid() && Forwardable(State(), methodType)
      modifies cw
      ensures cw.members == old(cw.members) + [Forwarder(State(), methodType)]
    {
      var mv := new MethodWriter();
      Generate(mv, methodType);
      assert mv.code == ForwarderCode(State(), methodType);
      cw.Visit(Method(ACC_PUBLIC, site.interfaceMethodName, MethodDescriptor(methodType), [], mv.code));
    }

    /** A forwarder for every bridge signature, in order. */
    method GenerateAltForwarders()
      requires Valid()
      modifies cw
      ensures cw.members == old(cw.members) + AltForwarders(State(), |site.altMethods|)
    {
      var p := State();
      for k := 0 to |site.altMethods|
        invariant cw.members == old(cw.members) + AltForwarders(p, k)
      {
        GenerateForwarder(site.altMethods[k]);
        Assoc(old(cw.members), AltForwarders(p, k), [Forwarder(p, site.altMethods[k])]);
      }
    }

    // -------------------------------------------------------------------
    // Constructor and class initializer of the proxy
    // -------------------------------------------------------------------

    /** `generateConstructor`: the private constructor storing every capture. */
    method GenerateConstructor()
      requires Valid()
      modifies cw
      ensures cw.members == old(cw.members)
        + [Method(ACC_PRIVATE, NameCtor, MethodDescriptor(ConstructorType(site)), [], CtorCode(State()))]
    {
      var p := State();
      var ctor := new MethodWriter();
      ctor.Visit(VarOp(ALOAD, 0));
      ctor.Visit(Invoke(INVOKESPECIAL, JavaLangObject, NameCtor, MethodDescriptorVoid, false));
      assert ctor.code == [VarOp(ALOAD, 0), Invoke(INVOKESPECIAL, JavaLangObject, NameCtor, MethodDescriptorVoid, false)];
      VisitCtorStores(ctor);
      ctor.Visit(Op(RETURN));
      assert ctor.code == CtorCode(p);
      cw.Visit(Method(ACC_PRIVATE, NameCtor, MethodDescriptor(ConstructorType(site)), [], ctor.code));
    }

    /** The constructor's loop over the parameters, tracking the local-variable slot of each. */
    method VisitCtorStores(ctor: MethodWriter)
      requires Valid()
      modifies ctor
      ensures ctor.code == old(ctor.code) + CtorStores(State(), |Captures(State())|)
    {
      var p := State();
      var params := site.factoryType.params;
      var parameterCount := |params|;
      var lvIndex := 0;
      assert WellFormedMethodType(site.factoryType);
      for i := 0 to parameterCount
        invariant ctor.code == old(ctor.code) + CtorStores(p, i)
        invariant lvIndex == Slots(params[..i])
      {
        var argType := params[i];
        VisitCtorStore(ctor, i, lvIndex);
        lvIndex := lvIndex + ParameterSize(argType);
        Assoc(old(ctor.code), CtorStores(p, i), CtorStore(p, i));
        assert params[..i + 1][..i] == params[..i];
      }
    }

    /** One turn of the constructor's loop: `this.arg$(i+1) = <parameter i>`. */
    method VisitCtorStore(ctor: MethodWriter, i: nat, lvIndex: nat)
      requires Valid() && i < argNames.Length
      requires lvIndex == Slots(site.factoryType.params[..i])
      modifies ctor
      ensures ctor.code == old(ctor.code) + CtorStore(State(), i)
    {
      var argType := site.factoryType.params[i];
      assert WellFormedMethodType(site.factoryType);
      ctor.Visit(VarOp(ALOAD, 0));
      ctor.Visit(VarOp(LoadOpcode(argType).value, lvIndex + 1));
      ctor.Visit(FieldOp(PUTFIELD, lambdaClassName, argNames[i], argDescs[i]));
    }

    /** `generateClassInitializer`: the static singleton field and the `<clinit>` that fills it. */
    method GenerateClassInitializer()
      requires Valid() && |site.factoryType.params| == 0
      modifies cw
      ensures cw.members == old(cw.members) + ClassInitializer(State())
    {
      var lambdaTypeDescriptor := Descriptor(site.factoryType.ret);
      cw.Visit(Field(ACC_PRIVATE + ACC_STATIC + ACC_FINAL, LambdaInstanceField, lambdaTypeDescriptor));
      var clinit := new MethodWriter();
      clinit.Visit(TypeOp(NEW, lambdaClassName));
      clinit.Visit(Op(DUP));
      clinit.Visit(Invoke(INVOKESPECIAL, lambdaClassName, NameCtor, MethodDescriptor(ConstructorType(site)), false));
      clinit.Visit(FieldOp(PUTSTATIC, lambdaClassName, LambdaInstanceField, lambdaTypeDescriptor));
      clinit.Visit(Op(RETURN));
      assert clinit.code == ClassInitializer(State())[1].code;
      assert cw.members == old(cw.members) + [ClassInitializer(State())[0]];
      cw.Visit(Method(ACC_STATIC, NameClinit, MethodDescriptorVoid, [], clinit.code));
      assert cw.members == old(cw.members) + [ClassInitializer(State())[0]] + [ClassInitializer(State())[1]];
    }

    // -------------------------------------------------------------------
    // Forwarders (`ForwardingMethodGenerator`)
    // -------------------------------------------------------------------

    /** `generate(methodType)`: the body of one forwarder, appended to `mv`. */
    method Generate(mv: MethodWriter, methodType: MethodType)
      requires Valid() && Forwardable(State(), methodType)
      modifies mv
      ensures mv.code == old(mv.code) + ForwarderCode(State(), methodType)
    {
      var p := State();
      if site.implKind == REF_newInvokeSpecial {
        mv.Visit(TypeOp(NEW, InternalName(site.implClass.name)));
        mv.Visit(Op(DUP));
      }
      if useImplMethodHandle {
        mv.Visit(Ldc(ImplMethodCondy));
      }
      assert mv.code == old(mv.code) + ForwarderPrelude(p);
      ghost var head := mv.code;
      for i := 0 to argNames.Length
        invariant mv.code == head + CaptureLoads(p, i)
      {
        VisitCaptureLoad(mv, i);
        Assoc(head, CaptureLoads(p, i), CaptureLoad(p, i));
      }
      ConvertArgumentTypes(mv, methodType);
      assert mv.code == old(mv.code) + ForwarderArgs(p, methodType) by {
        Assoc(old(mv.code), ForwarderPrelude(p), CaptureLoads(p, |Captures(p)|));
        Assoc(old(mv.code), ForwarderPrelude(p) + CaptureLoads(p, |Captures(p)|), ArgConversions(p, methodType, |methodType.params|));
      }
      VisitCallAndReturn(mv, methodType);
      Assoc(old(mv.code), ForwarderArgs(p, methodType), ForwarderTail(p, methodType));
    }

    /** One turn of `generate`'s capture loop: push `this.arg$(i+1)`. */
    method VisitCaptureLoad(mv: MethodWriter, i: nat)
      requires Valid() && i < argNames.Length
      modifies mv
      ensures mv.code == old(mv.code) + CaptureLoad(State(), i)
    {
      mv.Visit(VarOp(ALOAD, 0));
      mv.Visit(FieldOp(GETFIELD, lambdaClassName, argNames[i], argDescs[i]));
    }

    /**
     * The end of `generate`: invoke the implementation (through its handle,
     * or with `invocationOpcode()`), convert the result and return it.
     */
    method VisitCallAndReturn(mv: MethodWriter, methodType: MethodType)
      requires Valid()
      modifies mv
      ensures mv.code == old(mv.code) + ForwarderTail(State(), methodType)
    {
      if useImplMethodHandle {
        var mtype := site.impl.methodType;
        if site.implKind != REF_invokeStatic {
          mtype := MethodType([Ref(site.implClass.name)] + mtype.params, mtype.ret);
        }
        mv.Visit(Invoke(INVOKEVIRTUAL, NameMethodHandle, "invokeExact", MethodDescriptor(mtype), false));
        assert mtype == InvokeExactType(site);
      } else {
        mv.Visit(Invoke(InvocationOpcode(site.implKind).value, InternalName(site.implClass.name),
                        site.impl.name, MethodDescriptor(site.impl.methodType), site.implClass.isInterface));
      }
      var implReturnClass := site.implMethodType.ret;
      var samReturnClass := methodType.ret;
      mv.Visit(Convert(implReturnClass, samReturnClass, samReturnClass));
      mv.Visit(Op(ReturnOpcode(samReturnClass)));
    }

    /**
     * `convertArgumentTypes`: loads SAM parameter i from slot `lvIndex + 1`,
     * where `lvIndex` sums the sizes of the earlier parameters, and converts
     * it toward implementation parameter `captureArity + i`.
     */
    method ConvertArgumentTypes(mv: MethodWriter, samType: MethodType)
      requires Valid() && Forwardable(State(), samType)
      modifies mv
      ensures mv.code == old(mv.code) + ArgConversions(State(), samType, |samType.params|)
    {
      var p := State();
      var lvIndex := 0;
      var samParametersLength := |samType.params|;
      var captureArity := |site.factoryType.params|;
      for i := 0 to samParametersLength
        invariant mv.code == old(mv.code) + ArgConversions(p, samType, i)
        invariant lvIndex == Slots(samType.params[..i])
      {
        ghost var before := mv.code;
        var argType := samType.params[i];
        mv.Visit(VarOp(LoadOpcode(argType).value, lvIndex + 1));
        lvIndex := lvIndex + ParameterSize(argType);
        mv.Visit(Convert(argType, site.implMethodType.params[captureArity + i], site.dynamicMethodType.params[i]));
        assert mv.code == before + ArgConversion(p, samType, i);
        Assoc(old(mv.code), ArgConversions(p, samType, i), ArgConversion(p, samType, i));
        assert samType.params[..i + 1][..i] == samType.params[..i];
      }
    }

    // -------------------------------------------------------------------
    // Serialization support
    // -------------------------------------------------------------------

    /** `generateSerializationFriendlyMethods`: `writeReplace` returning a `SerializedLambda`. */
    method GenerateSerializationFriendlyMethods()
      requires Valid()
      modifies cw
      ensures cw.members == old(cw.members) + SerializationFriendly(State())
    {
      var p := State();
      var mv := new MethodWriter();
      PushSerializedLambdaArgs(mv);
      FillCaptureArray(mv);
      VisitConstructAndReturn(mv);
      assert [] + SerializedLambdaArgs(p) == SerializedLambdaArgs(p);
      cw.Visit(Method(ACC_PRIVATE + ACC_FINAL, NameWriteReplace, DescrWriteReplace, [], mv.code));
    }

    /**
     * The first part of `generateSerializationFriendlyMethods`: a new
     * `SerializedLambda`, the site's description, and the capture array.
     */
    method PushSerializedLambdaArgs(mv: MethodWriter)
      requires Valid()
      modifies mv
      ensures mv.code == old(mv.code) + SerializedLambdaArgs(State())
    {
      mv.Visit(TypeOp(NEW, NameSerializedLambda));
      mv.Visit(Op(DUP));
      VisitSiteDescription(mv);
      mv.Visit(IConst(argDescs.Length));
      mv.Visit(TypeOp(ANEWARRAY, JavaLangObject));
    }

    /** The nine `ldc`s that describe the call site to `SerializedLambda`'s constructor. */
    method VisitSiteDescription(mv: MethodWriter)
      modifies mv
      ensures mv.code == old(mv.code) + Ldcs(SerializedLambdaConstants(State()))
    {
      // the source's nine `visitLdcInsn` calls, one per constant in order
      var cs := SerializedLambdaConstants(State());
      for k := 0 to |cs|
        invariant mv.code == old(mv.code) + Ldcs(cs[..k])
      {
        mv.Visit(Ldc(cs[k]));
        assert Ldcs(cs[..k + 1]) == Ldcs(cs[..k]) + [Ldc(cs[k])];
      }
      assert cs[..|cs|] == cs;
    }

    /** The end of `writeReplace`: run `SerializedLambda`'s constructor and return the object. */
    method VisitConstructAndReturn(mv: MethodWriter)
      modifies mv
      ensures mv.code == old(mv.code)
        + [Invoke(INVOKESPECIAL, NameSerializedLambda, NameCtor, DescrCtorSerializedLambda, false), Op(ARETURN)]
    {
      mv.Visit(Invoke(INVOKESPECIAL, NameSerializedLambda, NameCtor, DescrCtorSerializedLambda, false));
      mv.Visit(Op(ARETURN));
    }

    /** `writeReplace`'s capture loop: every captured value, boxed, into the array on the stack. */
    method FillCaptureArray(mv: MethodWriter)
      requires Valid()
      modifies mv
      ensures mv.code == old(mv.code) + CaptureStores(State(), |Captures(State())|)
    {
      var p := State();
      for i := 0 to argDescs.Length
        invariant mv.code == old(mv.code) + CaptureStores(p, i)
      {
        VisitCaptureStore(mv, i);
        Assoc(old(mv.code), CaptureStores(p, i), CaptureStore(p, i));
      }
    }

    /** One turn of `writeReplace`'s capture loop: `array[i] = box(this.arg$(i+1))`. */
    method VisitCaptureStore(mv: MethodWriter, i: nat)
      requires Valid() && i < argDescs.Length
      modifies mv
      ensures mv.code == old(mv.code) + CaptureStore(State(), i)
    {
      mv.Visit(Op(DUP));
      mv.Visit(IConst(i));
      mv.Visit(VarOp(ALOAD, 0));
      mv.Visit(FieldOp(GETFIELD, lambdaClassName, argNames[i], argDescs[i]));
      mv.Visit(Box(argDescs[i]));
      mv.Visit(Op(AASTORE));
    }

    /** `generateSerializationHostileMethods`: `writeObject` and `readObject` that always throw. */
    method GenerateSerializationHostileMethods()
      modifies cw
      ensures cw.members == old(cw.members) + SerializationHostile
    {
      var mv := new MethodWriter();
      mv.Visit(TypeOp(NEW, NameNotSerializableException));
      mv.Visit(Op(DUP));
      mv.Visit(Ldc(StringConst(NonSerializableMessage)));
      mv.Visit(Invoke(INVOKESPECIAL, NameNotSerializableException, NameCtor, DescrCtorNotSerializableException, false));
      mv.Visit(Op(ATHROW));
      assert mv.code == HostileCode;
      cw.Visit(Method(ACC_PRIVATE + ACC_FINAL, NameWriteObject, DescrWriteObject, [NameNotSerializableException], mv.code));
      assert cw.members == old(cw.members) + [SerializationHostile[0]];

      mv := new MethodWriter();
      mv.Visit(TypeOp(NEW, NameNotSerializableException));
      mv.Visit(Op(DUP));
      mv.Visit(Ldc(StringConst(NonSerializableMessage)));
      mv.Visit(Invoke(INVOKESPECIAL, NameNotSerializableException, NameCtor, DescrCtorNotSerializableException, false));
      mv.Visit(Op(ATHROW));
      assert mv.code == HostileCode;
      cw.Visit(Method(ACC_PRIVATE + ACC_FINAL, NameReadObject, DescrReadObject, [NameNotSerializableException], mv.code));
      assert cw.members == old(cw.members) + [SerializationHostile[0]] + [SerializationHostile[1]];
    }
  }
}
