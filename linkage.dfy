/**
 * What happens to the generated class: `spinInnerClass` either reuses a
 * class from the CDS archive or defines the one `generateInnerClass`
 * emits (registering it when an archive is being dumped), and
 * `buildCallSite` links the call site to a static getter, a constant
 * instance or an adapted constructor handle. The lookups and the archive
 * are outside this model; what they answer is a parameter.
 */
module LambdaLinkage {
  import opened Wrappers
  import opened JvmTypes
  import opened LambdaSite
  import opened LambdaPlan
  import opened LambdaPlanProperties

  // ---------------------------------------------------------------------
  // Defining the class
  // ---------------------------------------------------------------------

  /** What `defineClass` is handed: the name, the class file's content, whether to initialize it, and the class data. */
  datatype HiddenClass = HiddenClass(name: string, members: seq<Member>, initialized: bool, classData: Option<ImplInfo>)

  /**
   * The class `generateInnerClass` defines: its members are the emission
   * plan, it is initialized eagerly unless that is disabled, and it carries
   * the implementation as class data exactly when the forwarders call it
   * through a handle.
   */
  function DefinedClass(p: Proxy): (c: HiddenClass)
    requires Ready(p)
    ensures c.name == p.className && c.members == ClassPlan(p)
    ensures c.initialized <==> !p.cfg.disableEagerInitialization
    ensures c.classData.Some? <==> p.useImplMethodHandle
  {
    HiddenClass(p.className, ClassPlan(p), !p.cfg.disableEagerInitialization,
                if p.useImplMethodHandle then Some(p.site.impl) else None)
  }

  /** A defined class carries class data exactly when some forwarder loads it with `ldc`. */
  lemma ClassDataWhenLoaded(p: Proxy)
    requires Ready(p)
    ensures DefinedClass(p).classData.Some?
      <==> Ldc(ImplMethodCondy) in ForwarderCode(p, p.site.interfaceMethodType)
  {
    var mt := p.site.interfaceMethodType;
    assert Forwardable(p, mt);
    LdcOnlyInPrelude(p, mt);
    var pre := ForwarderPrelude(p);
    if p.useImplMethodHandle {
      assert pre[|pre| - 1] == Ldc(ImplMethodCondy);
    }
  }

  /** Of a forwarder's instructions, only the prelude's may load the class data. */
  lemma LdcOnlyInPrelude(p: Proxy, mt: MethodType)
    requires Ready(p) && Forwardable(p, mt)
    ensures Ldc(ImplMethodCondy) in ForwarderCode(p, mt) <==> Ldc(ImplMethodCondy) in ForwarderPrelude(p)
  {
    var pre := ForwarderPrelude(p);
    var loads := CaptureLoads(p, |Captures(p)|);
    var convs := ArgConversions(p, mt, |mt.params|);
    var tail := ForwarderTail(p, mt);
    CaptureLoadsNoLdc(p, |Captures(p)|);
    ArgConversionsNoLdc(p, mt, |mt.params|);
    assert ForwarderCode(p, mt) == pre + loads + convs + tail;
    assert Ldc(ImplMethodCondy) !in loads;
    assert Ldc(ImplMethodCondy) !in convs;
    assert Ldc(ImplMethodCondy) !in tail;
  }

  lemma {:induction false} CaptureLoadsNoLdc(p: Proxy, k: nat)
    requires k <= |Captures(p)|
    ensures forall i :: 0 <= i < |CaptureLoads(p, k)| ==> !CaptureLoads(p, k)[i].Ldc?
  {
    if k > 0 {
      CaptureLoadsNoLdc(p, k - 1);
    }
  }

  lemma {:induction false} ArgConversionsNoLdc(p: Proxy, mt: MethodType, k: nat)
    requires Ready(p) && Forwardable(p, mt) && k <= |mt.params|
    ensures forall i :: 0 <= i < |ArgConversions(p, mt, k)| ==> !ArgConversions(p, mt, k)[i].Ldc?
  {
    if k > 0 {
      ArgConversionsNoLdc(p, mt, k - 1);
    }
  }

  // ---------------------------------------------------------------------
  // The CDS archive (`spinInnerClass`)
  // ---------------------------------------------------------------------

  /** The nine values `LambdaProxyClassArchive.find` and `register` identify a proxy class by. */
  datatype ArchiveKey = ArchiveKey(
    targetClass: ClassInfo,
    interfaceMethodName: string,
    factoryType: MethodType,
    interfaceMethodType: MethodType,
    implementation: ImplInfo,
    dynamicMethodType: MethodType,
    isSerializable: bool,
    altInterfaces: seq<ClassInfo>,
    altMethods: seq<MethodType>)

  function KeyOf(s: Site): ArchiveKey
  {
    ArchiveKey(s.targetClass, s.interfaceMethodName, s.factoryType, s.interfaceMethodType, s.impl,
               s.dynamicMethodType, s.isSerializable, s.altInterfaces, s.altMethods)
  }

  /** CDS handles neither a lazily initialized proxy nor one that needs class data. */
  predicate Archivable(p: Proxy)
  {
    !p.cfg.disableEagerInitialization && !p.useImplMethodHandle
  }

  /** Whether `spinInnerClass` returns a class loaded from the archive. */
  predicate ArchiveHit(p: Proxy, archived: map<ArchiveKey, HiddenClass>)
  {
    Archivable(p) && p.cfg.sharingEnabled && KeyOf(p.site) in archived
  }

  /** The class `spinInnerClass` returns, given what the archive holds. */
  function SpunClass(p: Proxy, archived: map<ArchiveKey, HiddenClass>): HiddenClass
    requires Ready(p)
  {
    if ArchiveHit(p, archived) then archived[KeyOf(p.site)] else DefinedClass(p)
  }

  /**
   * Whether `spinInnerClass` ends by throwing: it has to define the class
   * and `defineClass` throws, which `generateInnerClass` rethrows as an
   * `InternalError`.
   */
  predicate SpinThrows(p: Proxy, archived: map<ArchiveKey, HiddenClass>, defines: bool)
  {
    !ArchiveHit(p, archived) && !defines
  }

  /** What the archive holds after `spinInnerClass` returns: a class generated at dump time is registered. */
  function ArchiveAfterSpin(p: Proxy, archived: map<ArchiveKey, HiddenClass>): map<ArchiveKey, HiddenClass>
    requires Ready(p)
  {
    if Archivable(p) && !ArchiveHit(p, archived) && p.cfg.dumpingArchive
    then archived[KeyOf(p.site) := DefinedClass(p)]
    else archived
  }

  /** Unless the archive answers, the class is the generated one; the archive only answers an archivable proxy. */
  lemma SpinGenerates(p: Proxy, archived: map<ArchiveKey, HiddenClass>)
    requires Ready(p)
    ensures SpunClass(p, archived) != DefinedClass(p) ==> ArchiveHit(p, archived)
    ensures !Archivable(p) ==> SpunClass(p, archived) == DefinedClass(p) && ArchiveAfterSpin(p, archived) == archived
    ensures ArchiveHit(p, archived) ==> ArchiveAfterSpin(p, archived) == archived
  {
  }

  /**
   * Registration at dump time records exactly the class returned, under the
   * site's key, and touches no other entry.
   */
  lemma DumpRegistersSpunClass(p: Proxy, archived: map<ArchiveKey, HiddenClass>)
    requires Ready(p) && Archivable(p) && p.cfg.dumpingArchive
    ensures KeyOf(p.site) in ArchiveAfterSpin(p, archived)
    ensures ArchiveAfterSpin(p, archived)[KeyOf(p.site)] == SpunClass(p, archived)
    ensures forall k :: k in archived && k != KeyOf(p.site) ==> k in ArchiveAfterSpin(p, archived) && ArchiveAfterSpin(p, archived)[k] == archived[k]
  {
  }

  /**
   * Spinning the same site again, against the archive the first spin left
   * behind, returns the same class and leaves the archive as it was.
   */
  lemma SpinStable(p: Proxy, archived: map<ArchiveKey, HiddenClass>)
    requires Ready(p)
    ensures SpunClass(p, ArchiveAfterSpin(p, archived)) == SpunClass(p, archived)
    ensures ArchiveAfterSpin(p, ArchiveAfterSpin(p, archived)) == ArchiveAfterSpin(p, archived)
  {
    var after := ArchiveAfterSpin(p, archived);
    if Archivable(p) && !ArchiveHit(p, archived) && p.cfg.dumpingArchive {
      assert KeyOf(p.site) in after && after[KeyOf(p.site)] == DefinedClass(p);
      assert after[KeyOf(p.site) := DefinedClass(p)] == after;
    }
  }

  // ---------------------------------------------------------------------
  // Linking the call site (`buildCallSite`)
  // ---------------------------------------------------------------------

  /** How a reflective step ended: normally, with a `ReflectiveOperationException`, or with another throwable. */
  datatype Outcome = Normal | ThrowsReflective | ThrowsOther

  /**
   * What the caller's lookup and the handles answer: whether the hidden
   * class definer's `defineClass` returns, how `findStaticGetter` ends, how
   * `findConstructor` ends, and how the adaptation ends (`asType`, and for a
   * non-capturing lambda the `invokeExact` that creates the one instance).
   */
  datatype Linker = Linker(defines: bool, getter: Outcome, findConstructor: Outcome, adapt: Outcome)

  /** The target of the `ConstantCallSite`. */
  datatype CallSiteTarget =
    | StaticGetter(owner: string, field: string, fieldType: JType)              // the singleton field
    | ConstantInstance(interfaceClass: ClassInfo, instanceOf: string)          // `MethodHandles.constant(interfaceClass, inst)`
    | ConstructorHandle(owner: string, ctorType: MethodType, asType: MethodType) // `findConstructor(...).asType(factoryType)`

  /** How `buildCallSite` ends. */
  datatype Linkage =
    | Linked(target: CallSiteTarget)   // returns a `ConstantCallSite` on this target
    | Rejected(message: string)        // throws a `LambdaConversionException` with this message
    | Propagated                       // rethrows, unwrapped, what `findStaticGetter` threw
    | InternalError                    // throws the `InternalError` wrapping what `defineClass` threw

  const MsgStaticField := "Exception finding " + LambdaInstanceField + " static field"
  const MsgFindConstructor := "Exception finding constructor"
  const MsgInstantiate := "Exception instantiating lambda object"

  /** The `LambdaConversionException` message for a step that threw. */
  function Wrapped(o: Outcome): string
  {
    if o == ThrowsReflective then MsgFindConstructor else MsgInstantiate
  }

  /** `buildCallSite` once the class is spun. */
  function CallSiteFor(p: Proxy, innerClass: HiddenClass, k: Linker): Linkage
  {
    if HasClassInitializer(p) then
      match k.getter
      case Normal => Linked(StaticGetter(innerClass.name, LambdaInstanceField, p.site.factoryType.ret))
      case ThrowsReflective => Rejected(MsgStaticField)
      case ThrowsOther => Propagated
    else if k.findConstructor != Normal then Rejected(Wrapped(k.findConstructor))
    else if k.adapt != Normal then Rejected(Wrapped(k.adapt))
    else if |Captures(p)| == 0 then Linked(ConstantInstance(p.site.interfaceClass, innerClass.name))
    else Linked(ConstructorHandle(innerClass.name, ConstructorType(p.site), p.site.factoryType))
  }

  /** `buildCallSite` from the start: spin the class, then link it. */
  function BuildCallSiteFor(p: Proxy, archived: map<ArchiveKey, HiddenClass>, k: Linker): Linkage
    requires Ready(p)
  {
    if SpinThrows(p, archived, k.defines) then InternalError else CallSiteFor(p, SpunClass(p, archived), k)
  }

  /**
   * The three ways of linking and when each is taken: the static getter for
   * a lazily initialized non-capturing lambda, one shared instance for any
   * other non-capturing lambda, and the constructor adapted to the factory
   * type otherwise.
   */
  lemma CallSiteKinds(p: Proxy, c: HiddenClass, k: Linker)
    requires CallSiteFor(p, c, k).Linked?
    ensures CallSiteFor(p, c, k).target.StaticGetter? <==> HasClassInitializer(p)
    ensures CallSiteFor(p, c, k).target.ConstantInstance? <==> |Captures(p)| == 0 && !p.cfg.disableEagerInitialization
    ensures CallSiteFor(p, c, k).target.ConstructorHandle? <==> |Captures(p)| > 0
  {
  }

  /**
   * How linking fails. On the singleton path a reflective failure of the
   * getter becomes the static-field `LambdaConversionException` and any
   * other throwable passes through unwrapped; otherwise a failure of
   * `findConstructor` or of the adaptation becomes the constructor message
   * when reflective and the instantiation message when not.
   */
  lemma CallSiteErrors(p: Proxy, c: HiddenClass, k: Linker)
    ensures CallSiteFor(p, c, k).Rejected? <==>
      (if HasClassInitializer(p) then k.getter == ThrowsReflective else k.findConstructor != Normal || k.adapt != Normal)
    ensures CallSiteFor(p, c, k).Propagated? <==> HasClassInitializer(p) && k.getter == ThrowsOther
    ensures !CallSiteFor(p, c, k).InternalError?
    ensures CallSiteFor(p, c, k).Rejected? && HasClassInitializer(p) ==> CallSiteFor(p, c, k).message == MsgStaticField
    ensures CallSiteFor(p, c, k).Rejected? && !HasClassInitializer(p) ==>
      CallSiteFor(p, c, k).message == (if k.findConstructor == ThrowsReflective
                                        || (k.findConstructor == Normal && k.adapt == ThrowsReflective)
                                       then MsgFindConstructor else MsgInstantiate)
    ensures CallSiteFor(p, c, k).Rejected? ==> CallSiteFor(p, c, k).message in {MsgStaticField, MsgFindConstructor, MsgInstantiate}
  {
  }

  /**
   * `buildCallSite` ends with an `InternalError` exactly when the class has
   * to be defined and `defineClass` throws; an archived class needs no
   * definition. Otherwise it links the class `spinInnerClass` returned.
   */
  lemma BuildCallSiteDefines(p: Proxy, archived: map<ArchiveKey, HiddenClass>, k: Linker)
    requires Ready(p)
    ensures BuildCallSiteFor(p, archived, k).InternalError? <==> !ArchiveHit(p, archived) && !k.defines
    ensures ArchiveHit(p, archived) || k.defines ==>
      BuildCallSiteFor(p, archived, k) == CallSiteFor(p, SpunClass(p, archived), k)
  {
    CallSiteErrors(p, SpunClass(p, archived), k);
  }

  /**
   * The static-getter path only meets a class this metafactory generated,
   * never an archived one, and that class has the `<clinit>` and the static
   * `LAMBDA_INSTANCE$` field the getter reads.
   */
  lemma GetterFindsSingleton(p: Proxy, archived: map<ArchiveKey, HiddenClass>, k: Linker)
    requires Ready(p)
    requires CallSiteFor(p, SpunClass(p, archived), k).Linked?
    requires CallSiteFor(p, SpunClass(p, archived), k).target.StaticGetter?
    ensures SpunClass(p, archived) == DefinedClass(p)
    ensures CallSiteFor(p, SpunClass(p, archived), k).target.owner == p.className
    ensures HasMethod(SpunClass(p, archived).members, ACC_STATIC, NameClinit)
    ensures HasField(SpunClass(p, archived).members, ACC_PRIVATE + ACC_STATIC + ACC_FINAL, LambdaInstanceField)
  {
    PlanHasClinit(p);
    PlanHasSingletonField(p);
  }

  /**
   * The constructor handle is looked up with the type of the constructor
   * the plan declares and adapted only in its return type: same captured
   * parameters, `void` becoming the functional interface.
   */
  lemma ConstructorHandleAdaptsReturn(p: Proxy, c: HiddenClass, k: Linker)
    requires Ready(p)
    requires CallSiteFor(p, c, k).Linked? && CallSiteFor(p, c, k).target.ConstructorHandle?
    ensures CallSiteFor(p, c, k).target.ctorType.params == CallSiteFor(p, c, k).target.asType.params == Captures(p)
    ensures CallSiteFor(p, c, k).target.ctorType.ret == Primitive(Void)
    ensures CallSiteFor(p, c, k).target.asType.ret == Ref(p.site.interfaceClass.name)
    ensures Method(ACC_PRIVATE, NameCtor, MethodDescriptor(CallSiteFor(p, c, k).target.ctorType), [], CtorCode(p)) in ClassPlan(p)
  {
    assert Method(ACC_PRIVATE, NameCtor, MethodDescriptor(ConstructorType(p.site)), [], CtorCode(p)) in PlanFront(p);
  }
}
