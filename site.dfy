/**
 * The inputs of one lambda call site as the metafactory receives them, the
 * process-wide configuration, and the facts the validating superclass
 * (`AbstractValidatingLambdaMetafactory`) has established before the
 * metafactory's own constructor body runs.
 */
module LambdaSite {
  import opened JvmTypes
  import Opcodes

  /**
   * A class object seen as a whole: `getName()`, whether it is a hidden class,
   * whether it is an interface, and whether `Serializable.class.isAssignableFrom` it.
   */
  datatype ClassInfo = ClassInfo(name: string, hidden: bool, isInterface: bool, serializable: bool)

  /** What `caller.revealDirect(implementation)` tells about the implementation method. */
  datatype ImplInfo = ImplInfo(
    kind: int,                  // getReferenceKind(), a REF_* value, as recorded for serialization
    modifiers: bv32,            // getModifiers()
    name: string,               // getName()
    declaringClass: ClassInfo,  // getDeclaringClass()
    methodType: MethodType,     // getMethodType(): the member's own type, without a receiver
    memberName: string)         // implementation.internalMemberName().toString()

  /** The arguments of the metafactory constructor, with what the superclass derives from them. */
  datatype Site = Site(
    targetClass: ClassInfo,          // the caller's lookup class
    factoryType: MethodType,         // captured types -> functional interface
    interfaceClass: ClassInfo,       // factoryType.returnType()
    interfaceMethodName: string,
    interfaceMethodType: MethodType,
    impl: ImplInfo,
    implKind: int,                   // the superclass's implKind, which may differ from impl.kind
    implClass: ClassInfo,            // the class the implementation is invoked on
    implMethodType: MethodType,      // implementation.type(), receiver included
    dynamicMethodType: MethodType,
    isSerializable: bool,
    altInterfaces: seq<ClassInfo>,
    altMethods: seq<MethodType>,
    samePackage: bool)               // VerifyAccess.isSamePackage(targetClass, impl.declaringClass)

  /** Values read once from system properties and from the CDS runtime. */
  datatype Config = Config(
    disableEagerInitialization: bool,  // jdk.internal.lambda.disableEagerInitialization
    generateStableLambdaNames: bool,   // jdk.internal.lambda.generateStableLambdaNames
    sharingEnabled: bool,              // CDS.isSharingEnabled()
    dumpingArchive: bool)              // CDS.isDumpingArchive()

  /**
   * The arity relations the validating superclass checks before this class is
   * constructed: every implementation parameter is either captured or comes
   * from the interface method, the dynamic and bridge signatures have the
   * interface method's arity, no parameter type is `void`, the factory
   * returns the functional interface, and the implementation is one of the
   * five invocable kinds.
   */
  predicate Validated(s: Site)
  {
    && Opcodes.REF_invokeVirtual <= s.implKind <= Opcodes.REF_invokeInterface
    && |s.implMethodType.params| == |s.factoryType.params| + |s.interfaceMethodType.params|
    && |s.dynamicMethodType.params| == |s.interfaceMethodType.params|
    && (forall k :: 0 <= k < |s.altMethods| ==> |s.altMethods[k].params| == |s.interfaceMethodType.params|)
    && WellFormedMethodType(s.factoryType)
    && WellFormedMethodType(s.interfaceMethodType)
    && (forall k :: 0 <= k < |s.altMethods| ==> WellFormedMethodType(s.altMethods[k]))
    && s.factoryType.ret == Ref(s.interfaceClass.name)
  }

  /** `Modifier.isProtected`. */
  predicate IsProtected(modifiers: bv32)
  {
    modifiers & 0x0004 != 0
  }

  /**
   * `useImplMethodHandle`: the proxy cannot link to the implementation
   * symbolically when it is a protected member inherited from a class in
   * another package, or when it needs `invokespecial`; it then calls a live
   * method handle passed as class data.
   */
  predicate UseImplMethodHandle(s: Site)
  {
    (IsProtected(s.impl.modifiers) && !s.samePackage) || s.implKind == Opcodes.REF_invokeSpecial
  }
}
