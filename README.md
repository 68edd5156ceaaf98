# Lambda proxy generation and the foreign-call signature enumerator

This project models two pieces of the JDK in Dafny and proves properties of them.

**`InnerClassLambdaMetafactory`** spins the hidden class behind every
`invokedynamic` lambda call site. The model covers:

- the naming of the proxy class, both the simple `$$Lambda` name and the
  stable name, which carries a hexadecimal 64-bit hash made of two CRC-32s
  over masked call-site data;
- the constructor's capture-argument arrays and its `useImplMethodHandle`
  decision;
- the opcode helpers;
- the exact sequence of members and instructions that `generateInnerClass`
  hands to an abstract class writer (header, capture fields, constructor,
  class initializer, forwarders, serialization methods);
- `spinInnerClass` with the archive of pre-generated classes;
- `buildCallSite`, with its three call-site shapes, its three error
  messages, the getter's other throwables that pass through unchanged, and
  the `InternalError` of a class definition that fails.

The code is modelled as it is written:

- The metafactory, the class writer, the method writer, the interface set
  and the archive are classes whose methods append to their state.
- Each emitting method is proved equal to a function on the call site (the
  "plan"). The properties of the plan are proved as lemmas.

**`CallGeneratorHelper`** is the enumerator of C signatures used by the
foreign-function tests. The model covers:

- `generateTest`, the recursive odometer over a `Stack` that lists every
  sequence of length `i`;
- the lazily filled `perms` memo;
- `sigCode` and `ParamType.type`;
- `functions()`, which numbers every signature, names it
  `f<chunk>_<ret>_<params>_<fields>` and keeps every `SAMPLE_FACTOR`-th one.

The enumeration is proved complete, duplicate-free and in odometer order. The
numbering is proved ordered and complete for the sample, and a function name
is proved to determine its signature.

Modules:

| file | module | what it holds |
|---|---|---|
| `wrappers.dfy` | `Wrappers` | `Option` and `Result` |
| `text.dfy` | `Text` | character replacement, digits in a radix, join and split |
| `jvm_types.dfy` | `JvmTypes` | field and method descriptors, with their parser |
| `opcodes.dfy` | `Opcodes` | the `get*Opcode`, `getParameterSize` and `invocationOpcode` helpers |
| `site.dfy` | `LambdaSite` | the call site, the configuration, the `useImplMethodHandle` rule |
| `naming.dfy` | `LambdaNaming` | the class names and the hash |
| `plan.dfy` | `LambdaPlan` | the members and instructions emitted, as functions |
| `plan_properties.dfy` | `LambdaPlanProperties` | what the plan guarantees |
| `linkage.dfy` | `LambdaLinkage` | class definition, the archive, and call-site linking |
| `metafactory.dfy` | `LambdaMetafactory` | the metafactory and the writers, imperatively |
| `call_generator.dfy` | `CallGenerator` | the signature enumerator |

In the table below, `M` is
`src/java.base/share/classes/java/lang/invoke/InnerClassLambdaMetafactory.java`
and `C` is `test/jdk/java/foreign/CallGeneratorHelper.java`; the source cells
spell the paths out.

## Model

| member | source | states |
|---|---|---|
| LambdaNaming.CreateNameFromTargetClass | src/java.base/share/classes/java/lang/invoke/InnerClassLambdaMetafactory.java:214-221 | The name is the class name followed by "$$Lambda" and holds no '.'. For a hidden class, a '/' appears exactly where the class name had a '.'. |
| LambdaNaming.SimpleNameRecoversClassName | src/java.base/share/classes/java/lang/invoke/InnerClassLambdaMetafactory.java:214-221 | Turning '/' back into '.' in the prefix recovers the binary name of an ordinary class. For a hidden class it gives the name with '/' shown as '_'. |
| LambdaNaming.AppendData | src/java.base/share/classes/java/lang/invoke/InnerClassLambdaMetafactory.java:267-272 | The first builder grows by the data masked with 0xAA and the second by the data masked with 0x55. |
| LambdaNaming.MaskAppend | src/java.base/share/classes/java/lang/invoke/InnerClassLambdaMetafactory.java:267-272 | Masking distributes over concatenation, so appending piece by piece equals masking the whole input. |
| LambdaNaming.MasksSplitLowByte | src/java.base/share/classes/java/lang/invoke/InnerClassLambdaMetafactory.java:267-272 | The two masked bytes are disjoint and together form the char's low byte. Chars with the same low byte hash alike. |
| LambdaNaming.MaskIsLatin1 | src/java.base/share/classes/java/lang/invoke/InnerClassLambdaMetafactory.java:267-276 | Every masked char is below 0x100. |
| LambdaNaming.Utf8RoundTrip | src/java.base/share/classes/java/lang/invoke/InnerClassLambdaMetafactory.java:274-278 | The UTF-8 bytes fed to the CRC decode back to the masked string, so no information is lost before hashing. |
| LambdaNaming.Stream2IsAscii | src/java.base/share/classes/java/lang/invoke/InnerClassLambdaMetafactory.java:267-278 | The 0x55 stream is ASCII, and its UTF-8 form has one byte per char. |
| LambdaNaming.CrcUpdateAppend | src/java.base/share/classes/java/lang/invoke/InnerClassLambdaMetafactory.java:274-278 | The CRC-32 update over a concatenation equals two successive updates. |
| LambdaNaming.HashStringToLong | src/java.base/share/classes/java/lang/invoke/InnerClassLambdaMetafactory.java:274-278 | The CRC value fits in 32 bits. |
| LambdaNaming.Pack | src/java.base/share/classes/java/lang/invoke/InnerClassLambdaMetafactory.java:280-284 | The packed long is below 2^64, and its low and high words are the two CRCs. |
| LambdaNaming.OrOfDisjointWordsIsSum | src/java.base/share/classes/java/lang/invoke/InnerClassLambdaMetafactory.java:283 | On 64-bit values, OR-ing lo with hi shifted left by 32 equals their sum when lo fits in 32 bits. |
| LambdaNaming.HashToHexString | src/java.base/share/classes/java/lang/invoke/InnerClassLambdaMetafactory.java:280-284 | The text has 1 to 16 lower-case hex digits and no leading zero. Parsed back, its low word is the CRC of stream 1 and its high word the CRC of stream 2. |
| LambdaNaming.Names | src/java.base/share/classes/java/lang/invoke/InnerClassLambdaMetafactory.java:286-293 | Each parameter is rendered by its own name, in order. |
| LambdaNaming.NameIsLegal | src/java.base/share/classes/java/lang/invoke/InnerClassLambdaMetafactory.java:286-293 | A type's name is non-empty and holds no ',' or ')'. |
| LambdaNaming.QualifiedSignatureRoundTrip | src/java.base/share/classes/java/lang/invoke/InnerClassLambdaMetafactory.java:286-293 | `(p1,p2,...)r` parses back to the parameter names and the return name. |
| LambdaNaming.StableLambdaClassName | src/java.base/share/classes/java/lang/invoke/InnerClassLambdaMetafactory.java:246-265 | The method's builder loops produce exactly the stable name. |
| LambdaNaming.AppendEach | src/java.base/share/classes/java/lang/invoke/InnerClassLambdaMetafactory.java:256-262 | Appending a list of pieces grows each builder by the masked concatenation. |
| LambdaNaming.HashInputOrder | src/java.base/share/classes/java/lang/invoke/InnerClassLambdaMetafactory.java:250-262 | The hashed input is, in order, the interface method name, the factory type, the interface type, the implementation member, the dynamic type, then the alternate interface names and the alternate signatures. |
| LambdaNaming.StableNameShape | src/java.base/share/classes/java/lang/invoke/InnerClassLambdaMetafactory.java:246-265 | The stable name is the simple name plus 1 to 16 hex digits and holds no '.'. The digits encode the CRCs of both masked streams of the hashed input. |
| JvmTypes.PrimOfCode | src/java.base/share/classes/java/lang/invoke/InnerClassLambdaMetafactory.java:203 | A recognised descriptor letter maps back to the primitive with that letter. |
| JvmTypes.ParseFieldDescriptor | src/java.base/share/classes/java/lang/invoke/InnerClassLambdaMetafactory.java:201-204 | A field descriptor parses back to its type and leaves the rest of the text. |
| JvmTypes.HiddenClassDescriptor | src/java.base/share/classes/java/lang/invoke/InnerClassLambdaMetafactory.java:201-204 | A hidden class named `binary/suffix` is described by `L`, the binary name with '/' separators, '.', the suffix, then ';'. |
| JvmTypes.DescriptorMarksHidden | src/java.base/share/classes/java/lang/invoke/InnerClassLambdaMetafactory.java:201-204 | A class descriptor holds a '.' exactly when the class is hidden, so hidden and ordinary classes are never confused. |
| JvmTypes.ParseParamsDescriptors | src/java.base/share/classes/java/lang/invoke/InnerClassLambdaMetafactory.java:184 | The concatenated parameter descriptors parse back to the parameter list. |
| JvmTypes.MethodDescriptorRoundTrip | src/java.base/share/classes/java/lang/invoke/InnerClassLambdaMetafactory.java:424-425 | A method descriptor parses back to its method type. |
| JvmTypes.MethodDescriptorInjective | src/java.base/share/classes/java/lang/invoke/InnerClassLambdaMetafactory.java:429-433 | Distinct method types have distinct descriptors, so the bridge forwarders never collide. |
| Opcodes.ParameterSize | src/java.base/share/classes/java/lang/invoke/InnerClassLambdaMetafactory.java:656-663 | At most 2 slots, and 0 exactly for `void`. |
| Opcodes.ParameterSizeByCategory | src/java.base/share/classes/java/lang/invoke/InnerClassLambdaMetafactory.java:656-663 | `long` and `double` take 2 slots and everything else 1. |
| Opcodes.LoadOpcode | src/java.base/share/classes/java/lang/invoke/InnerClassLambdaMetafactory.java:665-670 | Fails exactly for `void`. Otherwise the result is the load of the type's computational type: ILOAD for `boolean`, `byte`, `char`, `short` and `int`, then LLOAD, FLOAD, DLOAD, and ALOAD for references. |
| Opcodes.ReturnOpcode | src/java.base/share/classes/java/lang/invoke/InnerClassLambdaMetafactory.java:672-677 | RETURN exactly for `void`. Otherwise the return of the type's computational type: IRETURN for `boolean` to `int`, then LRETURN, FRETURN, DRETURN, and ARETURN for references. |
| Opcodes.LoadOpcodeByComputational | src/java.base/share/classes/java/lang/invoke/InnerClassLambdaMetafactory.java:665-692 | Loads and returns use the same offset. Two types share a load opcode exactly when they share a computational type. |
| Opcodes.InvocationOpcode | src/java.base/share/classes/java/lang/invoke/InnerClassLambdaMetafactory.java:644-653 | Succeeds exactly for the five invocable reference kinds, with an INVOKE* opcode. |
| Opcodes.InvocationOpcodePreimage | src/java.base/share/classes/java/lang/invoke/InnerClassLambdaMetafactory.java:644-653 | Each invoke opcode comes from exactly the kinds the switch lists. INVOKESPECIAL comes from both `invokeSpecial` and `newInvokeSpecial`. |
| Opcodes.SlotsIncrease | src/java.base/share/classes/java/lang/invoke/InnerClassLambdaMetafactory.java:632-642 | The running `lvIndex` grows by each parameter's size and stays within twice the count. |
| LambdaPlanProperties.ArgNamesDistinct | src/java.base/share/classes/java/lang/invoke/InnerClassLambdaMetafactory.java:197-207 | Every capture field name starts with "arg$", and two names are equal only for the same index. |
| LambdaPlanProperties.ArgSlotsDisjoint | src/java.base/share/classes/java/lang/invoke/InnerClassLambdaMetafactory.java:496-500 | Parameter slots start at 1 plus the sizes before them and never overlap. |
| LambdaPlanProperties.CtorStoresEveryCapture | src/java.base/share/classes/java/lang/invoke/InnerClassLambdaMetafactory.java:487-507 | The constructor puts `arg$1..arg$n` in order, each from its own non-overlapping parameter slot. |
| LambdaPlanProperties.CaptureLoadsDepth | src/java.base/share/classes/java/lang/invoke/InnerClassLambdaMetafactory.java:600-603 | Loading the k captured fields pushes k values. |
| LambdaPlanProperties.ArgConversionsSlots | src/java.base/share/classes/java/lang/invoke/InnerClassLambdaMetafactory.java:632-642 | The interface arguments are loaded from exactly the slots their sizes assign. |
| LambdaPlanProperties.ForwarderPreludeDepth | src/java.base/share/classes/java/lang/invoke/InnerClassLambdaMetafactory.java:593-599 | Before the arguments, the stack holds 2 for `new; dup` plus 1 for the method handle, as applicable. |
| LambdaPlanProperties.ForwarderShape | src/java.base/share/classes/java/lang/invoke/InnerClassLambdaMetafactory.java:590-630 | A forwarder reads every capture field and loads every interface argument from its own slot. It pushes one value per implementation parameter above the prelude, and ends with the return opcode of its type. |
| LambdaPlanProperties.ArgConversionsTargets | src/java.base/share/classes/java/lang/invoke/InnerClassLambdaMetafactory.java:632-642 | Interface argument i is converted from its own type toward the implementation parameter that follows the captures, with dynamic type parameter i. |
| LambdaPlanProperties.ForwarderConversions | src/java.base/share/classes/java/lang/invoke/InnerClassLambdaMetafactory.java:590-642 | A forwarder's conversions are, in order, one per interface argument as above, then the implementation's return type toward the interface return type. Nothing before the arguments is converted. |
| LambdaPlanProperties.WriteReplaceStoresEveryCapture | src/java.base/share/classes/java/lang/invoke/InnerClassLambdaMetafactory.java:512-547 | `writeReplace` reads every capture field in order, and the array fill leaves the stack as it found it. |
| LambdaPlanProperties.WriteReplaceArraySize | src/java.base/share/classes/java/lang/invoke/InnerClassLambdaMetafactory.java:531-532 | The captured-argument array has as many elements as there are captures. |
| LambdaPlanProperties.HostileMethodsThrow | src/java.base/share/classes/java/lang/invoke/InnerClassLambdaMetafactory.java:552-578 | `writeObject` and `readObject` declare `NotSerializableException`, end in ATHROW and never return. |
| LambdaPlanProperties.DedupProperties | src/java.base/share/classes/java/lang/invoke/InnerClassLambdaMetafactory.java:389-402 | The insertion-ordered set holds exactly the inputs, without repeats, starting with the first, in first-occurrence order. |
| LambdaPlanProperties.InterfaceNamesDistinct | src/java.base/share/classes/java/lang/invoke/InnerClassLambdaMetafactory.java:389-402 | The implemented interfaces start with the functional interface and are distinct. |
| LambdaPlanProperties.InterfaceNamesCover | src/java.base/share/classes/java/lang/invoke/InnerClassLambdaMetafactory.java:396-398 | Every marker interface is implemented. |
| LambdaPlanProperties.InterfaceNamesOnly | src/java.base/share/classes/java/lang/invoke/InnerClassLambdaMetafactory.java:389-402 | Nothing else is implemented. |
| LambdaPlanProperties.CaptureFieldsAreFields | src/java.base/share/classes/java/lang/invoke/InnerClassLambdaMetafactory.java:409-415 | The capture fields are private final fields. |
| LambdaPlanProperties.AltForwardersArePublic | src/java.base/share/classes/java/lang/invoke/InnerClassLambdaMetafactory.java:429-435 | Every bridge forwarder is a public method. |
| LambdaPlanProperties.FixedMembers | src/java.base/share/classes/java/lang/invoke/InnerClassLambdaMetafactory.java:404-435 | The only method in the front part is the private constructor, and every forwarder is public. |
| LambdaPlanProperties.PrivateFinalMethodsSerialize | src/java.base/share/classes/java/lang/invoke/InnerClassLambdaMetafactory.java:437-440 | A private final method of the class comes from the serialization part. |
| LambdaPlanProperties.PlanHasWriteReplace | src/java.base/share/classes/java/lang/invoke/InnerClassLambdaMetafactory.java:437-438 | The class has `writeReplace` if and only if the site is serializable. |
| LambdaPlanProperties.PlanHasWriteObject | src/java.base/share/classes/java/lang/invoke/InnerClassLambdaMetafactory.java:389-402 | The class has the throwing `writeObject` if and only if it is serializable only through an inherited interface. |
| LambdaPlanProperties.PlanSerializationExclusive | src/java.base/share/classes/java/lang/invoke/InnerClassLambdaMetafactory.java:437-440 | The class never has both kinds of serialization method. |
| LambdaPlanProperties.PlanParts | src/java.base/share/classes/java/lang/invoke/InnerClassLambdaMetafactory.java:404-443 | Every member of the class comes from one of the four parts or is `visitEnd`. |
| LambdaPlanProperties.PlanHasClinit | src/java.base/share/classes/java/lang/invoke/InnerClassLambdaMetafactory.java:419-421 | `<clinit>` exists if and only if the lambda is non-capturing and eager initialization is disabled. |
| LambdaPlanProperties.PlanHasSingletonField | src/java.base/share/classes/java/lang/invoke/InnerClassLambdaMetafactory.java:461-467 | The `LAMBDA_INSTANCE$` field exists under the same condition as `<clinit>`. |
| LambdaPlanProperties.ImplCallKinds | src/java.base/share/classes/java/lang/invoke/InnerClassLambdaMetafactory.java:607-619 | INVOKESPECIAL is used only for a directly linked constructor. An `implKind` of `invokeSpecial` and cross-package protected members go through `MethodHandle.invokeExact`. Otherwise the call names the implementation class and method. `implKind` is the metafactory's own kind, which may differ from the handle's. |
| LambdaLinkage.ClassDataWhenLoaded | src/java.base/share/classes/java/lang/invoke/InnerClassLambdaMetafactory.java:446-451 | The class carries class data if and only if its forwarder loads it with the dynamic constant. |
| LambdaLinkage.SpinGenerates | src/java.base/share/classes/java/lang/invoke/InnerClassLambdaMetafactory.java:342-377 | The spun class differs from a freshly generated one only on an archive hit. With no archiving, spinning generates and leaves the archive alone. |
| LambdaLinkage.DumpRegistersSpunClass | src/java.base/share/classes/java/lang/invoke/InnerClassLambdaMetafactory.java:360-373 | When dumping, the archive maps the site's key to the spun class and keeps every other entry. |
| LambdaLinkage.SpinStable | src/java.base/share/classes/java/lang/invoke/InnerClassLambdaMetafactory.java:342-377 | Spinning again with the updated archive gives the same class and archive. |
| LambdaLinkage.CallSiteKinds | src/java.base/share/classes/java/lang/invoke/InnerClassLambdaMetafactory.java:307-333 | A linked site is a static getter exactly when `<clinit>` exists, and a constant exactly for an eager non-capturing lambda. It is a constructor handle exactly when there are captures. |
| LambdaLinkage.CallSiteErrors | src/java.base/share/classes/java/lang/invoke/InnerClassLambdaMetafactory.java:307-331 | On the getter path, a `ReflectiveOperationException` is rejected with the static-field message and any other throwable passes through unchanged. On the constructor path, linking is rejected exactly when the lookup or the adaptation throws: the find-constructor message for a reflective exception from the lookup or, after a normal lookup, from the adaptation; otherwise the instantiation message. Linking never ends in `InternalError`. |
| LambdaLinkage.GetterFindsSingleton | src/java.base/share/classes/java/lang/invoke/InnerClassLambdaMetafactory.java:309-316 | A static getter reads `LAMBDA_INSTANCE$` of a class that has both `<clinit>` and the field. |
| LambdaLinkage.ConstructorHandleAdaptsReturn | src/java.base/share/classes/java/lang/invoke/InnerClassLambdaMetafactory.java:318-326 | The constructor handle takes the captures and returns void, is adapted to return the interface, and that constructor is in the class. |
| LambdaLinkage.BuildCallSiteDefines | src/java.base/share/classes/java/lang/invoke/InnerClassLambdaMetafactory.java:446-455 | `buildCallSite` ends in `InternalError` exactly when the class is not archived and `defineClass` throws. Otherwise it links the spun class. |
| LambdaMetafactory.NewArgArrays | src/java.base/share/classes/java/lang/invoke/InnerClassLambdaMetafactory.java:197-207 | The arrays hold `arg$i` and each capture's descriptor. With no captures the same empty array is shared. |
| LambdaMetafactory.LinkedHashSet.Add | src/java.base/share/classes/java/lang/invoke/InnerClassLambdaMetafactory.java:395-398 | Appends a name the set did not hold, and otherwise changes nothing. |
| LambdaMetafactory.LambdaProxyClassArchive.Find | src/java.base/share/classes/java/lang/invoke/InnerClassLambdaMetafactory.java:347-356 | Finds the archived class exactly when the key is present. |
| LambdaMetafactory.LambdaProxyClassArchive.Register | src/java.base/share/classes/java/lang/invoke/InnerClassLambdaMetafactory.java:362-371 | Maps the key to the class and leaves the other keys unchanged. |
| LambdaMetafactory.InnerClassLambdaMetafactory.constructor | src/java.base/share/classes/java/lang/invoke/InnerClassLambdaMetafactory.java:169-208 | The proxy name is stable or simple per the configuration. The handle decision follows the rule, and the arrays are consistent. |
| LambdaMetafactory.InnerClassLambdaMetafactory.BuildCallSite | src/java.base/share/classes/java/lang/invoke/InnerClassLambdaMetafactory.java:307-333 | The result is `InternalError` when definition fails and otherwise the link of the spun class. The archive is updated as spinning prescribes, and is left alone when definition fails. The writer holds the whole plan unless the archive answered. |
| LambdaMetafactory.InnerClassLambdaMetafactory.SpinInnerClass | src/java.base/share/classes/java/lang/invoke/InnerClassLambdaMetafactory.java:342-377 | Returns nothing exactly when the class is not archived and its definition throws. Otherwise returns the spun class and updates the archive. The writer holds the whole plan unless the archive answered. |
| LambdaMetafactory.InnerClassLambdaMetafactory.GenerateInnerClass | src/java.base/share/classes/java/lang/invoke/InnerClassLambdaMetafactory.java:387-456 | The writer receives exactly the class plan. The result is the defined class, with the proxy name, the plan, eager initialization and class data as configured, or nothing when `defineClass` throws. |
| LambdaMetafactory.InnerClassLambdaMetafactory.CollectInterfaces | src/java.base/share/classes/java/lang/invoke/InnerClassLambdaMetafactory.java:389-402 | Computes the ordered interface set and the accidental-serializability flag. |
| LambdaMetafactory.InnerClassLambdaMetafactory.GenerateFront | src/java.base/share/classes/java/lang/invoke/InnerClassLambdaMetafactory.java:404-417 | Appends the header, the capture fields and the constructor. |
| LambdaMetafactory.InnerClassLambdaMetafactory.VisitCaptureFields | src/java.base/share/classes/java/lang/invoke/InnerClassLambdaMetafactory.java:409-415 | Appends one field per capture. |
| LambdaMetafactory.InnerClassLambdaMetafactory.GenerateInitializerMembers | src/java.base/share/classes/java/lang/invoke/InnerClassLambdaMetafactory.java:419-421 | Appends the singleton field and `<clinit>` when required. |
| LambdaMetafactory.InnerClassLambdaMetafactory.GenerateClassInitializer | src/java.base/share/classes/java/lang/invoke/InnerClassLambdaMetafactory.java:461-482 | Appends the singleton field and the `<clinit>` that stores a fresh instance. |
| LambdaMetafactory.InnerClassLambdaMetafactory.GenerateForwarders | src/java.base/share/classes/java/lang/invoke/InnerClassLambdaMetafactory.java:424-435 | Appends the interface forwarder and then one bridge per alternate type. |
| LambdaMetafactory.InnerClassLambdaMetafactory.GenerateForwarder | src/java.base/share/classes/java/lang/invoke/InnerClassLambdaMetafactory.java:424-426 | Appends one public forwarder of that type. |
| LambdaMetafactory.InnerClassLambdaMetafactory.GenerateAltForwarders | src/java.base/share/classes/java/lang/invoke/InnerClassLambdaMetafactory.java:429-435 | Appends the bridges in order. |
| LambdaMetafactory.InnerClassLambdaMetafactory.GenerateSerializationMembers | src/java.base/share/classes/java/lang/invoke/InnerClassLambdaMetafactory.java:437-440 | Appends the friendly, the hostile or no serialization methods. |
| LambdaMetafactory.InnerClassLambdaMetafactory.GenerateConstructor | src/java.base/share/classes/java/lang/invoke/InnerClassLambdaMetafactory.java:487-507 | Appends the private constructor whose body is `aload 0`, the `Object` constructor call, the stores of every capture, then RETURN. |
| LambdaMetafactory.InnerClassLambdaMetafactory.VisitCtorStores | src/java.base/share/classes/java/lang/invoke/InnerClassLambdaMetafactory.java:494-502 | Appends the stores of all captures in order, each from the slot that follows the sizes before it. |
| LambdaMetafactory.InnerClassLambdaMetafactory.VisitCtorStore | src/java.base/share/classes/java/lang/invoke/InnerClassLambdaMetafactory.java:497-501 | Appends the store of one capture from its slot. |
| LambdaMetafactory.InnerClassLambdaMetafactory.Generate | src/java.base/share/classes/java/lang/invoke/InnerClassLambdaMetafactory.java:590-630 | Emits exactly the forwarder body. |
| LambdaMetafactory.InnerClassLambdaMetafactory.VisitCaptureLoad | src/java.base/share/classes/java/lang/invoke/InnerClassLambdaMetafactory.java:600-603 | Emits `aload 0; getfield arg$i`. |
| LambdaMetafactory.InnerClassLambdaMetafactory.VisitCallAndReturn | src/java.base/share/classes/java/lang/invoke/InnerClassLambdaMetafactory.java:607-629 | Emits the call, the return conversion and the return. |
| LambdaMetafactory.InnerClassLambdaMetafactory.ConvertArgumentTypes | src/java.base/share/classes/java/lang/invoke/InnerClassLambdaMetafactory.java:632-642 | Emits one load and conversion per interface argument. |
| LambdaMetafactory.InnerClassLambdaMetafactory.GenerateSerializationFriendlyMethods | src/java.base/share/classes/java/lang/invoke/InnerClassLambdaMetafactory.java:512-547 | Appends the planned `writeReplace`. |
| LambdaMetafactory.InnerClassLambdaMetafactory.PushSerializedLambdaArgs | src/java.base/share/classes/java/lang/invoke/InnerClassLambdaMetafactory.java:520-532 | Emits `new; dup`, the site description and the sized array. |
| LambdaMetafactory.InnerClassLambdaMetafactory.VisitSiteDescription | src/java.base/share/classes/java/lang/invoke/InnerClassLambdaMetafactory.java:522-530 | Emits one `ldc` per constructor argument of `SerializedLambda`, in order: the capturing class, the interface, its method and descriptor, the implementation kind, class, name and descriptor, and the instantiated descriptor. |
| LambdaMetafactory.InnerClassLambdaMetafactory.FillCaptureArray | src/java.base/share/classes/java/lang/invoke/InnerClassLambdaMetafactory.java:533-540 | Emits the boxed store of every capture. |
| LambdaMetafactory.InnerClassLambdaMetafactory.VisitCaptureStore | src/java.base/share/classes/java/lang/invoke/InnerClassLambdaMetafactory.java:534-539 | Emits the store of one capture into the array. |
| LambdaMetafactory.InnerClassLambdaMetafactory.VisitConstructAndReturn | src/java.base/share/classes/java/lang/invoke/InnerClassLambdaMetafactory.java:541-543 | Emits the `SerializedLambda` constructor call and ARETURN. |
| LambdaMetafactory.InnerClassLambdaMetafactory.GenerateSerializationHostileMethods | src/java.base/share/classes/java/lang/invoke/InnerClassLambdaMetafactory.java:552-578 | Appends the two throwing methods. |
| CallGenerator.ParamType.Type | test/jdk/java/foreign/CallGeneratorHelper.java:104-108 | A struct is "struct S_" plus its fields' code. Any other type is its C name, without '_'. |
| CallGenerator.TypeInjective | test/jdk/java/foreign/CallGeneratorHelper.java:104-108 | The type string determines the parameter type, and for a struct its fields. |
| CallGenerator.SigCode | test/jdk/java/foreign/CallGeneratorHelper.java:187-189 | One char per element: the initial of its name. |
| CallGenerator.InitialsDistinct | test/jdk/java/foreign/CallGeneratorHelper.java:60-94 | The constant names have distinct initials, drawn from "IFDPS" and "IFDP". |
| CallGenerator.SigCodeInjective | test/jdk/java/foreign/CallGeneratorHelper.java:187-189 | With distinct initials, the code determines the list. |
| CallGenerator.GenerateTestInto | test/jdk/java/foreign/CallGeneratorHelper.java:138-148 | The results gain every extension of the stack in odometer order, and the stack is restored. |
| CallGenerator.GenerateTest | test/jdk/java/foreign/CallGeneratorHelper.java:132-136 | Returns every length-i sequence of the elements, in odometer order. |
| CallGenerator.TestsCount | test/jdk/java/foreign/CallGeneratorHelper.java:138-148 | There are n^i results for n elements. |
| CallGenerator.TestsShape | test/jdk/java/foreign/CallGeneratorHelper.java:138-148 | Each result is the stack plus i elements of the set. |
| CallGenerator.TestsAt | test/jdk/java/foreign/CallGeneratorHelper.java:138-148 | Result k picks the elements given by the base-n digits of k, for n elements. |
| CallGenerator.RanksOrdered | test/jdk/java/foreign/CallGeneratorHelper.java:142-146 | Earlier results have lexicographically smaller digit vectors. |
| CallGenerator.TestsDistinct | test/jdk/java/foreign/CallGeneratorHelper.java:138-148 | With distinct elements, no result repeats. |
| CallGenerator.TestsComplete | test/jdk/java/foreign/CallGeneratorHelper.java:138-148 | Every length-i sequence over the elements is among the results. |
| CallGenerator.PermsMemo.constructor | test/jdk/java/foreign/CallGeneratorHelper.java:122 | Ten empty slots. |
| CallGenerator.PermsMemo.Perms | test/jdk/java/foreign/CallGeneratorHelper.java:124-129 | Returns `generateTest(i, values())` and caches it. A filled slot is returned as is, and other slots are untouched. |
| CallGenerator.SignaturesWellFormed | test/jdk/java/foreign/CallGeneratorHelper.java:154-183 | Every enumerated signature has a return code, at most three parameters and at most three fields, and has fields exactly when a parameter is a struct. |
| CallGenerator.EmitSignature | test/jdk/java/foreign/CallGeneratorHelper.java:164-169 | Numbers one signature and adds its row when sampled. |
| CallGenerator.EmitFieldLists | test/jdk/java/foreign/CallGeneratorHelper.java:162-170 | Numbers one signature per field list. |
| CallGenerator.EmitStructs | test/jdk/java/foreign/CallGeneratorHelper.java:160-171 | Numbers the struct signatures for field counts 1 to 3. |
| CallGenerator.EmitParamLists | test/jdk/java/foreign/CallGeneratorHelper.java:157-181 | Numbers the signatures of each parameter list. |
| CallGenerator.EmitArities | test/jdk/java/foreign/CallGeneratorHelper.java:155-182 | Numbers arities 0 to 3, skipping non-void arity 0. |
| CallGenerator.Functions | test/jdk/java/foreign/CallGeneratorHelper.java:150-185 | The rows are the sampled, numbered and named enumeration, and the memos stay consistent. |
| CallGenerator.NumberedRowsSound | test/jdk/java/foreign/CallGeneratorHelper.java:164-169 | Each row is sampled, and it is the named signature at its count. |
| CallGenerator.NumberedOrdered | test/jdk/java/foreign/CallGeneratorHelper.java:164-165 | The row counts strictly increase. |
| CallGenerator.NumberedComplete | test/jdk/java/foreign/CallGeneratorHelper.java:167-169 | Every sampled count has a row. |
| CallGenerator.NumberedAll | test/jdk/java/foreign/CallGeneratorHelper.java:167 | With factor -1, row k is signature k. |
| CallGenerator.NamePartsJoin | test/jdk/java/foreign/CallGeneratorHelper.java:166 | The name is the four '_'-free parts joined by '_'. |
| CallGenerator.NameDeterminesSignature | test/jdk/java/foreign/CallGeneratorHelper.java:158-166 | Equal function names mean the same signature and the same chunk. |

## Left out

- Class-file bytes, constant-pool layout, `visitMaxs` and stack-map frames are not modelled. A member is the data of one `visit*` call.
- `TypeConvertingMethodAdapter.convertType` and boxing appear as single opaque instructions (`Convert`, `Box`); their expansion is not modelled.
- The checks of `AbstractValidatingLambdaMetafactory` are taken as the `Validated` precondition, not modelled as code.
- The caller's `Lookup` and its answers are parameters: the `Linker` record says whether `defineClass`, `findStaticGetter`, `findConstructor`, `asType` and `invokeExact` return or throw, and what they throw.
- `caller.makeHiddenClassDefiner(...).defineClass(...)` becomes the `DefinedClass` value, and class initialization a flag. When `defineClass` throws, the result is `InternalError`, without the wrapped throwable.
- The CDS archive (`LambdaProxyClassArchive` and `CDS`) is a map from call-site keys to classes. `LambdaProxyClassArchive.java` and `CDS.java` are not part of this model.
- `JvmTypes.MethodDescriptorRoundTrip`, `JvmTypes.MethodDescriptorInjective` and `JvmTypes.ParseFieldDescriptor` are stated for class names without '/', which excludes hidden classes. Reading a hidden class's descriptor back is not modelled; its form is stated by `JvmTypes.HiddenClassDescriptor`.
- System properties are the `Config` record.
- `ClassFileDumper` output is not modelled.
- Java chars are UTF-16 code units, while Dafny chars are Unicode scalar values. They agree for text without supplementary characters. A supplementary character is two UTF-16 units in Java, so it adds two masked chars to each hashed stream, but it is one char here. The stable name of a site whose names contain such a character is therefore not modelled.
- The `MemoryLayout` of each type (`layout`), the `THROWING_ALLOCATOR` and the remaining helpers of `CallGeneratorHelper` (argument generation and checking) are not modelled. `functions()` does not depend on them.
- `CallGenerator.Functions`: requires a non-zero sample factor, where the source would throw `ArithmeticException` on the first `%`.
- `CallGenerator.PermsMemo.Perms`: requires `i < 10`, where the source would throw `ArrayIndexOutOfBoundsException`. The memo keeps values, so the identity of the cached Java list is not captured.
- `LambdaMetafactory.InnerClassLambdaMetafactory.BuildCallSite`: a rejected site is reported only by its message, and the exception's cause is not modelled. A throwable that passes through from the getter, and the one wrapped in `InternalError`, are not modelled either; only the outcome is.
