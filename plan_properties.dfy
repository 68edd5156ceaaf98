/**
 * What the emission plan guarantees: the constructor stores every capture
 * and the forwarders read every capture, in order, from non-overlapping
 * argument slots; `writeReplace` boxes every capture; the interface list
 * has no duplicates; and the optional member groups appear exactly when the
 * call site asks for them.
 */
module LambdaPlanProperties {
  import opened Text
  import opened JvmTypes
  import opened Opcodes
  import opened LambdaSite
  import opened LambdaPlan

  /** The capture fields are named apart, so no two fields clash. */
  lemma ArgNamesDistinct(i: nat, j: nat)
    ensures ArgName(i)[..4] == "arg$"
    ensures ArgName(i) == ArgName(j) <==> i == j
  {
    var a, b := ArgName(i), ArgName(j);
    assert a[4..] == ToDigits(i + 1, 10) && b[4..] == ToDigits(j + 1, 10);
    if a == b {
      ToDigitsInjective(i + 1, j + 1, 10);
    }
  }

  lemma {:induction false} ArgNamesAt(n: nat, i: nat)
    requires i < n
    ensures ArgNames(n)[i] == ArgName(i)
  {
    if i < n - 1 { ArgNamesAt(n - 1, i); }
  }

  // ---------------------------------------------------------------------
  // The filters, one instruction, a short piece and a concatenation at a time
  // ---------------------------------------------------------------------

  lemma NamesCons(x: Insn, rest: seq<Insn>, op: int)
    ensures FieldNames([x] + rest, op) == FieldNameOf(x, op) + FieldNames(rest, op)
  {
    assert ([x] + rest)[1..] == rest;
  }

  lemma SlotsCons(x: Insn, rest: seq<Insn>)
    ensures ParamSlots([x] + rest) == SlotOf(x) + ParamSlots(rest)
  {
    assert ([x] + rest)[1..] == rest;
  }

  lemma DepthCons(x: Insn, rest: seq<Insn>)
    ensures Depth([x] + rest) == StackGrowth(x) + Depth(rest)
  {
    assert ([x] + rest)[1..] == rest;
  }

  lemma NamesOf2(x: Insn, y: Insn, op: int)
    ensures FieldNames([x, y], op) == FieldNameOf(x, op) + FieldNameOf(y, op)
  {
    assert [x, y] == [x] + ([y] + []);
    NamesCons(y, [], op);
    NamesCons(x, [y], op);
  }

  lemma SlotsOf2(x: Insn, y: Insn)
    ensures ParamSlots([x, y]) == SlotOf(x) + SlotOf(y)
  {
    assert [x, y] == [x] + ([y] + []);
    SlotsCons(y, []);
    SlotsCons(x, [y]);
  }

  lemma DepthOf2(x: Insn, y: Insn)
    ensures Depth([x, y]) == StackGrowth(x) + StackGrowth(y)
  {
    assert [x, y] == [x] + ([y] + []);
    DepthCons(y, []);
    DepthCons(x, [y]);
  }

  lemma NamesOf3(x: Insn, y: Insn, z: Insn, op: int)
    ensures FieldNames([x, y, z], op) == FieldNameOf(x, op) + FieldNameOf(y, op) + FieldNameOf(z, op)
  {
    assert [x, y, z] == [x] + [y, z];
    NamesOf2(y, z, op);
    NamesCons(x, [y, z], op);
  }

  lemma SlotsOf3(x: Insn, y: Insn, z: Insn)
    ensures ParamSlots([x, y, z]) == SlotOf(x) + SlotOf(y) + SlotOf(z)
  {
    assert [x, y, z] == [x] + [y, z];
    SlotsOf2(y, z);
    SlotsCons(x, [y, z]);
  }

  lemma DepthOf3(x: Insn, y: Insn, z: Insn)
    ensures Depth([x, y, z]) == StackGrowth(x) + StackGrowth(y) + StackGrowth(z)
  {
    assert [x, y, z] == [x] + [y, z];
    DepthOf2(y, z);
    DepthCons(x, [y, z]);
  }

  /** The field names of a concatenation are those of its parts, in order. */
  lemma {:induction false} NamesDistribute(a: seq<Insn>, b: seq<Insn>, op: int)
    ensures FieldNames(a + b, op) == FieldNames(a, op) + FieldNames(b, op)
    decreases |a|
  {
    if a == [] {
      assert a + b == b;
    } else {
      assert a + b == [a[0]] + (a[1..] + b);
      assert a == [a[0]] + a[1..];
      NamesDistribute(a[1..], b, op);
      NamesCons(a[0], a[1..] + b, op);
      NamesCons(a[0], a[1..], op);
    }
  }

  lemma {:induction false} SlotsDistribute(a: seq<Insn>, b: seq<Insn>)
    ensures ParamSlots(a + b) == ParamSlots(a) + ParamSlots(b)
    decreases |a|
  {
    if a == [] {
      assert a + b == b;
    } else {
      assert a + b == [a[0]] + (a[1..] + b);
      assert a == [a[0]] + a[1..];
      SlotsDistribute(a[1..], b);
      SlotsCons(a[0], a[1..] + b);
      SlotsCons(a[0], a[1..]);
    }
  }

  lemma {:induction false} DepthDistribute(a: seq<Insn>, b: seq<Insn>)
    ensures Depth(a + b) == Depth(a) + Depth(b)
    decreases |a|
  {
    if a == [] {
      assert a + b == b;
    } else {
      assert a + b == [a[0]] + (a[1..] + b);
      assert a == [a[0]] + a[1..];
      DepthDistribute(a[1..], b);
      DepthCons(a[0], a[1..] + b);
      DepthCons(a[0], a[1..]);
    }
  }

  // The same, with the filters of the parts given, so that a proof brings
  // in only the terms it uses.

  lemma NamesAppend(a: seq<Insn>, b: seq<Insn>, op: int, x: seq<string>, y: seq<string>)
    requires FieldNames(a, op) == x && FieldNames(b, op) == y
    ensures FieldNames(a + b, op) == x + y
  {
    NamesDistribute(a, b, op);
  }

  lemma SlotsAppend(a: seq<Insn>, b: seq<Insn>, x: seq<int>, y: seq<int>)
    requires ParamSlots(a) == x && ParamSlots(b) == y
    ensures ParamSlots(a + b) == x + y
  {
    SlotsDistribute(a, b);
  }

  lemma DepthAppend(a: seq<Insn>, b: seq<Insn>, x: int, y: int)
    requires Depth(a) == x && Depth(b) == y
    ensures Depth(a + b) == x + y
  {
    DepthDistribute(a, b);
  }

  lemma ConversionsCons(x: Insn, rest: seq<Insn>)
    ensures Conversions([x] + rest) == ConvertOf(x) + Conversions(rest)
  {
    assert ([x] + rest)[1..] == rest;
  }

  lemma ConversionsOf2(x: Insn, y: Insn)
    ensures Conversions([x, y]) == ConvertOf(x) + ConvertOf(y)
  {
    assert [x, y] == [x] + ([y] + []);
    ConversionsCons(y, []);
    ConversionsCons(x, [y]);
  }

  lemma ConversionsOf3(x: Insn, y: Insn, z: Insn)
    ensures Conversions([x, y, z]) == ConvertOf(x) + ConvertOf(y) + ConvertOf(z)
  {
    assert [x, y, z] == [x] + [y, z];
    ConversionsOf2(y, z);
    ConversionsCons(x, [y, z]);
  }

  lemma {:induction false} ConversionsDistribute(a: seq<Insn>, b: seq<Insn>)
    ensures Conversions(a + b) == Conversions(a) + Conversions(b)
    decreases |a|
  {
    if a == [] {
      assert a + b == b;
    } else {
      assert a + b == [a[0]] + (a[1..] + b);
      assert a == [a[0]] + a[1..];
      ConversionsDistribute(a[1..], b);
      ConversionsCons(a[0], a[1..] + b);
      ConversionsCons(a[0], a[1..]);
    }
  }

  lemma ConversionsAppend(a: seq<Insn>, b: seq<Insn>, x: seq<Insn>, y: seq<Insn>)
    requires Conversions(a) == x && Conversions(b) == y
    ensures Conversions(a + b) == x + y
  {
    ConversionsDistribute(a, b);
  }

  /** Two more steps, neither a `convertType`, add no conversion. */
  lemma ConversionsExtendInert(code: seq<Insn>, more: seq<Insn>)
    requires |more| == 2 && !more[0].Convert? && !more[1].Convert?
    ensures Conversions(code + more) == Conversions(code)
  {
    assert more == [more[0], more[1]];
    ConversionsOf2(more[0], more[1]);
    ConversionsAppend(code, more, Conversions(code), []);
  }

  /** Code without `convertType` steps converts nothing. */
  lemma {:induction false} ConversionsInert(code: seq<Insn>)
    requires forall i :: 0 <= i < |code| ==> !code[i].Convert?
    ensures Conversions(code) == []
    decreases |code|
  {
    if code != [] {
      ConversionsInert(code[1..]);
    }
  }

  /** Code without field instructions names no field. */
  lemma {:induction false} NamesInert(code: seq<Insn>, op: int)
    requires forall i :: 0 <= i < |code| ==> !code[i].FieldOp?
    ensures FieldNames(code, op) == []
    decreases |code|
  {
    if code != [] {
      NamesInert(code[1..], op);
    }
  }

  // ---------------------------------------------------------------------
  // Argument slots
  // ---------------------------------------------------------------------

  lemma {:induction false} ArgSlotsAt(ts: seq<JType>, k: nat, i: nat)
    requires i < k <= |ts|
    ensures ArgSlots(ts, k)[i] == 1 + Slots(ts[..i])
  {
    if i < k - 1 { ArgSlotsAt(ts, k - 1, i); }
  }

  /**
   * With no `void` among the types, the argument slots are strictly
   * increasing and never overlap: each argument ends before the next begins.
   */
  lemma ArgSlotsDisjoint(ts: seq<JType>)
    requires forall k :: 0 <= k < |ts| ==> ts[k] != Primitive(Void)
    ensures forall i :: 0 <= i < |ts| ==> ArgSlots(ts, |ts|)[i] == 1 + Slots(ts[..i])
    ensures forall i, j :: 0 <= i < j < |ts| ==> ArgSlots(ts, |ts|)[i] + ParameterSize(ts[i]) <= ArgSlots(ts, |ts|)[j]
  {
    forall i | 0 <= i < |ts| ensures ArgSlots(ts, |ts|)[i] == 1 + Slots(ts[..i]) {
      ArgSlotsAt(ts, |ts|, i);
    }
    forall i, j | 0 <= i < j < |ts| ensures ArgSlots(ts, |ts|)[i] + ParameterSize(ts[i]) <= ArgSlots(ts, |ts|)[j] {
      ArgSlotsAt(ts, |ts|, i);
      ArgSlotsAt(ts, |ts|, j);
      SlotsIncrease(ts, i, j);
    }
  }

  /** The captured types are never `void`. */
  lemma CapturesNotVoid(p: Proxy)
    requires Ready(p)
    ensures forall k :: 0 <= k < |Captures(p)| ==> Captures(p)[k] != Primitive(Void)
  {
    assert WellFormedMethodType(p.site.factoryType);
  }

  // ---------------------------------------------------------------------
  // Constructor
  // ---------------------------------------------------------------------

  /** One store writes field `arg$(i+1)` from the argument's slot. */
  lemma CtorStoreShape(p: Proxy, i: nat)
    requires Ready(p) && i < |Captures(p)|
    ensures FieldNames(CtorStore(p, i), PUTFIELD) == [ArgName(i)]
    ensures ParamSlots(CtorStore(p, i)) == [1 + Slots(Captures(p)[..i])]
  {
    var c := CtorStore(p, i);
    NamesOf3(c[0], c[1], c[2], PUTFIELD);
    SlotsOf3(c[0], c[1], c[2]);
  }

  lemma {:induction false} CtorStoresWrites(p: Proxy, k: nat)
    requires Ready(p) && k <= |Captures(p)|
    ensures FieldNames(CtorStores(p, k), PUTFIELD) == ArgNames(k)
  {
    if k > 0 {
      CtorStoresWrites(p, k - 1);
      CtorStoreShape(p, k - 1);
      NamesAppend(CtorStores(p, k - 1), CtorStore(p, k - 1), PUTFIELD, ArgNames(k - 1), [ArgName(k - 1)]);
    }
  }

  lemma {:induction false} CtorStoresSlots(p: Proxy, k: nat)
    requires Ready(p) && k <= |Captures(p)|
    ensures ParamSlots(CtorStores(p, k)) == ArgSlots(Captures(p), k)
  {
    if k > 0 {
      CtorStoresSlots(p, k - 1);
      CtorStoreShape(p, k - 1);
      SlotsAppend(CtorStores(p, k - 1), CtorStore(p, k - 1), ArgSlots(Captures(p), k - 1), [1 + Slots(Captures(p)[..k - 1])]);
    }
  }

  /** The constructor writes exactly the capture fields, in order. */
  lemma CtorCodeWrites(p: Proxy)
    requires Ready(p)
    ensures FieldNames(CtorCode(p), PUTFIELD) == ArgNames(|Captures(p)|)
  {
    var n := |Captures(p)|;
    var pre := [VarOp(ALOAD, 0), Invoke(INVOKESPECIAL, JavaLangObject, NameCtor, MethodDescriptorVoid, false)];
    var ret := [Op(RETURN)];
    assert CtorCode(p) == pre + CtorStores(p, n) + ret;
    CtorStoresWrites(p, n);
    NamesOf2(pre[0], pre[1], PUTFIELD);
    NamesInert(ret, PUTFIELD);
    NamesAppend(pre, CtorStores(p, n), PUTFIELD, [], ArgNames(n));
    NamesAppend(pre + CtorStores(p, n), ret, PUTFIELD, ArgNames(n), []);
  }

  /** The constructor reads exactly the argument slots, in order. */
  lemma CtorCodeSlots(p: Proxy)
    requires Ready(p)
    ensures ParamSlots(CtorCode(p)) == ArgSlots(Captures(p), |Captures(p)|)
  {
    var n := |Captures(p)|;
    var pre := [VarOp(ALOAD, 0), Invoke(INVOKESPECIAL, JavaLangObject, NameCtor, MethodDescriptorVoid, false)];
    var ret := [Op(RETURN)];
    assert CtorCode(p) == pre + CtorStores(p, n) + ret;
    CtorStoresSlots(p, n);
    SlotsOf2(pre[0], pre[1]);
    SlotsCons(ret[0], []);
    assert ret == [ret[0]] + [];
    SlotsAppend(pre, CtorStores(p, n), [], ArgSlots(Captures(p), n));
    SlotsAppend(pre + CtorStores(p, n), ret, ArgSlots(Captures(p), n), []);
  }

  /**
   * The constructor stores the captures into `arg$1..arg$n` in order, reading
   * argument i from slot 1 + Slots(earlier arguments): strictly increasing
   * slots, each one right after the previous argument, ending at the last
   * argument slot.
   */
  lemma CtorStoresEveryCapture(p: Proxy)
    requires Ready(p)
    ensures FieldNames(CtorCode(p), PUTFIELD) == ArgNames(|Captures(p)|)
    ensures var slots := ParamSlots(CtorCode(p));
      && |slots| == |Captures(p)|
      && (forall i :: 0 <= i < |slots| ==> slots[i] == 1 + Slots(Captures(p)[..i]))
      && (forall i, j :: 0 <= i < j < |slots| ==> slots[i] + ParameterSize(Captures(p)[i]) <= slots[j])
  {
    CtorCodeWrites(p);
    CtorCodeSlots(p);
    CapturesNotVoid(p);
    ArgSlotsDisjoint(Captures(p));
  }

  // ---------------------------------------------------------------------
  // Forwarders
  // ---------------------------------------------------------------------

  /** One capture push reads field `arg$(i+1)` and leaves one value. */
  lemma CaptureLoadShape(p: Proxy, i: nat)
    requires i < |Captures(p)|
    ensures FieldNames(CaptureLoad(p, i), GETFIELD) == [ArgName(i)]
    ensures ParamSlots(CaptureLoad(p, i)) == []
    ensures Depth(CaptureLoad(p, i)) == 1
  {
    var c := CaptureLoad(p, i);
    NamesOf2(c[0], c[1], GETFIELD);
    SlotsOf2(c[0], c[1]);
    DepthOf2(c[0], c[1]);
  }

  lemma {:induction false} CaptureLoadsReads(p: Proxy, k: nat)
    requires k <= |Captures(p)|
    ensures FieldNames(CaptureLoads(p, k), GETFIELD) == ArgNames(k)
  {
    if k > 0 {
      CaptureLoadsReads(p, k - 1);
      CaptureLoadShape(p, k - 1);
      NamesAppend(CaptureLoads(p, k - 1), CaptureLoad(p, k - 1), GETFIELD, ArgNames(k - 1), [ArgName(k - 1)]);
    }
  }

  lemma {:induction false} CaptureLoadsSlots(p: Proxy, k: nat)
    requires k <= |Captures(p)|
    ensures ParamSlots(CaptureLoads(p, k)) == []
  {
    if k > 0 {
      CaptureLoadsSlots(p, k - 1);
      CaptureLoadShape(p, k - 1);
      SlotsAppend(CaptureLoads(p, k - 1), CaptureLoad(p, k - 1), [], []);
    }
  }

  lemma {:induction false} CaptureLoadsDepth(p: Proxy, k: nat)
    requires k <= |Captures(p)|
    ensures Depth(CaptureLoads(p, k)) == k
  {
    if k > 0 {
      CaptureLoadsDepth(p, k - 1);
      CaptureLoadShape(p, k - 1);
      DepthAppend(CaptureLoads(p, k - 1), CaptureLoad(p, k - 1), k - 1, 1);
    }
  }

  /** One argument load reads the parameter's slot, no field, and leaves one value. */
  lemma ArgConversionShape(p: Proxy, mt: MethodType, i: nat)
    requires Ready(p) && Forwardable(p, mt) && i < |mt.params|
    ensures FieldNames(ArgConversion(p, mt, i), GETFIELD) == []
    ensures ParamSlots(ArgConversion(p, mt, i)) == [1 + Slots(mt.params[..i])]
    ensures Depth(ArgConversion(p, mt, i)) == 1
  {
    var c := ArgConversion(p, mt, i);
    NamesOf2(c[0], c[1], GETFIELD);
    SlotsOf2(c[0], c[1]);
    DepthOf2(c[0], c[1]);
  }

  lemma {:induction false} ArgConversionsReads(p: Proxy, mt: MethodType, k: nat)
    requires Ready(p) && Forwardable(p, mt) && k <= |mt.params|
    ensures FieldNames(ArgConversions(p, mt, k), GETFIELD) == []
  {
    if k > 0 {
      ArgConversionsReads(p, mt, k - 1);
      ArgConversionShape(p, mt, k - 1);
      NamesAppend(ArgConversions(p, mt, k - 1), ArgConversion(p, mt, k - 1), GETFIELD, [], []);
    }
  }

  lemma {:induction false} ArgConversionsSlots(p: Proxy, mt: MethodType, k: nat)
    requires Ready(p) && Forwardable(p, mt) && k <= |mt.params|
    ensures ParamSlots(ArgConversions(p, mt, k)) == ArgSlots(mt.params, k)
  {
    if k > 0 {
      ArgConversionsSlots(p, mt, k - 1);
      ArgConversionShape(p, mt, k - 1);
      SlotsAppend(ArgConversions(p, mt, k - 1), ArgConversion(p, mt, k - 1), ArgSlots(mt.params, k - 1), [1 + Slots(mt.params[..k - 1])]);
    }
  }

  lemma {:induction false} ArgConversionsDepth(p: Proxy, mt: MethodType, k: nat)
    requires Ready(p) && Forwardable(p, mt) && k <= |mt.params|
    ensures Depth(ArgConversions(p, mt, k)) == k
  {
    if k > 0 {
      ArgConversionsDepth(p, mt, k - 1);
      ArgConversionShape(p, mt, k - 1);
      DepthAppend(ArgConversions(p, mt, k - 1), ArgConversion(p, mt, k - 1), k - 1, 1);
    }
  }

  /** What a forwarder pushes before the captures: the new object twice for a constructor, the handle when called through one. */
  lemma ForwarderPreludeNames(p: Proxy)
    ensures FieldNames(ForwarderPrelude(p), GETFIELD) == []
  {
    NamesInert(ForwarderPrelude(p), GETFIELD);
  }

  lemma ForwarderPreludeSlots(p: Proxy)
    ensures ParamSlots(ForwarderPrelude(p)) == []
  {
    var a := if p.site.implKind == REF_newInvokeSpecial then [TypeOp(NEW, InternalName(p.site.implClass.name)), Op(DUP)] else [];
    var b := if p.useImplMethodHandle then [Ldc(ImplMethodCondy)] else [];
    assert ForwarderPrelude(p) == a + b;
    if a != [] { SlotsOf2(a[0], a[1]); }
    if b != [] { assert b == [b[0]] + []; SlotsCons(b[0], []); }
    SlotsAppend(a, b, [], []);
  }

  lemma ForwarderPreludeDepth(p: Proxy)
    ensures Depth(ForwarderPrelude(p)) ==
      (if p.site.implKind == REF_newInvokeSpecial then 2 else 0) + (if p.useImplMethodHandle then 1 else 0)
  {
    var a := if p.site.implKind == REF_newInvokeSpecial then [TypeOp(NEW, InternalName(p.site.implClass.name)), Op(DUP)] else [];
    var b := if p.useImplMethodHandle then [Ldc(ImplMethodCondy)] else [];
    assert ForwarderPrelude(p) == a + b;
    if a != [] { DepthOf2(a[0], a[1]); }
    if b != [] { assert b == [b[0]] + []; DepthCons(b[0], []); }
    DepthAppend(a, b, Depth(a), Depth(b));
  }

  /** The call, the conversion of the result and the return read no field and no argument. */
  lemma ForwarderTailShape(p: Proxy, mt: MethodType)
    requires Ready(p)
    ensures FieldNames(ForwarderTail(p, mt), GETFIELD) == [] && ParamSlots(ForwarderTail(p, mt)) == []
  {
    var t := ForwarderTail(p, mt);
    NamesOf3(t[0], t[1], t[2], GETFIELD);
    SlotsOf3(t[0], t[1], t[2]);
  }

  /** A forwarder reads exactly the capture fields, in order. */
  lemma ForwarderReads(p: Proxy, mt: MethodType)
    requires Ready(p) && Forwardable(p, mt)
    ensures FieldNames(ForwarderCode(p, mt), GETFIELD) == ArgNames(|Captures(p)|)
  {
    var n := |Captures(p)|;
    var a, c, d, t := ForwarderPrelude(p), CaptureLoads(p, n), ArgConversions(p, mt, |mt.params|), ForwarderTail(p, mt);
    assert ForwarderCode(p, mt) == a + c + d + t;
    ForwarderPreludeNames(p);
    CaptureLoadsReads(p, n);
    ArgConversionsReads(p, mt, |mt.params|);
    ForwarderTailShape(p, mt);
    NamesAppend(a, c, GETFIELD, [], ArgNames(n));
    NamesAppend(a + c, d, GETFIELD, ArgNames(n), []);
    NamesAppend(a + c + d, t, GETFIELD, ArgNames(n), []);
  }

  /** A forwarder reads exactly the argument slots of its signature, in order. */
  lemma ForwarderSlots(p: Proxy, mt: MethodType)
    requires Ready(p) && Forwardable(p, mt)
    ensures ParamSlots(ForwarderCode(p, mt)) == ArgSlots(mt.params, |mt.params|)
  {
    var n := |Captures(p)|;
    var a, c, d, t := ForwarderPrelude(p), CaptureLoads(p, n), ArgConversions(p, mt, |mt.params|), ForwarderTail(p, mt);
    var slots := ArgSlots(mt.params, |mt.params|);
    assert ForwarderCode(p, mt) == a + c + d + t;
    ForwarderPreludeSlots(p);
    CaptureLoadsSlots(p, n);
    ArgConversionsSlots(p, mt, |mt.params|);
    ForwarderTailShape(p, mt);
    SlotsAppend(a, c, [], []);
    SlotsAppend(a + c, d, [], slots);
    SlotsAppend(a + c + d, t, slots, []);
  }

  /** Before the call the stack holds the prelude, then one value per implementation parameter. */
  lemma ForwarderArgsDepth(p: Proxy, mt: MethodType)
    requires Ready(p) && Forwardable(p, mt)
    ensures Depth(ForwarderArgs(p, mt)) == Depth(ForwarderPrelude(p)) + |p.site.implMethodType.params|
  {
    var n := |Captures(p)|;
    var a, c, d := ForwarderPrelude(p), CaptureLoads(p, n), ArgConversions(p, mt, |mt.params|);
    assert ForwarderArgs(p, mt) == a + c + d;
    CaptureLoadsDepth(p, n);
    ArgConversionsDepth(p, mt, |mt.params|);
    DepthAppend(a, c, Depth(a), n);
    DepthAppend(a + c, d, Depth(a) + n, |mt.params|);
  }

  /**
   * A forwarder pushes every captured field `arg$1..arg$n` in order and reads
   * no other field; it loads SAM parameter i from slot 1 + the sizes of the
   * earlier parameters, in strictly increasing, non-overlapping slots; before
   * the call the stack holds exactly the implementation's arguments (plus the
   * new object twice for a constructor and the handle when called through
   * one); and it returns with the opcode of the SAM return type.
   */
  lemma ForwarderShape(p: Proxy, mt: MethodType)
    requires Ready(p) && Forwardable(p, mt)
    ensures FieldNames(ForwarderCode(p, mt), GETFIELD) == ArgNames(|Captures(p)|)
    ensures var slots := ParamSlots(ForwarderCode(p, mt));
      && |slots| == |mt.params|
      && (forall i :: 0 <= i < |slots| ==> slots[i] == 1 + Slots(mt.params[..i]))
      && (forall i, j :: 0 <= i < j < |slots| ==> slots[i] + ParameterSize(mt.params[i]) <= slots[j])
    ensures Depth(ForwarderArgs(p, mt)) ==
      (if p.site.implKind == REF_newInvokeSpecial then 2 else 0)
      + (if p.useImplMethodHandle then 1 else 0)
      + |p.site.implMethodType.params|
    ensures ForwarderCode(p, mt)[|ForwarderCode(p, mt)| - 1] == Op(ReturnOpcode(mt.ret))
  {
    ForwarderReads(p, mt);
    ForwarderSlots(p, mt);
    ForwarderArgsDepth(p, mt);
    ForwarderPreludeDepth(p);
    assert WellFormedMethodType(mt);
    ArgSlotsDisjoint(mt.params);
  }

  lemma {:induction false} CaptureLoadsConvertNothing(p: Proxy, k: nat)
    requires k <= |Captures(p)|
    ensures Conversions(CaptureLoads(p, k)) == []
  {
    if k > 0 {
      CaptureLoadsConvertNothing(p, k - 1);
      ConversionsExtendInert(CaptureLoads(p, k - 1), CaptureLoad(p, k - 1));
    }
  }

  /**
   * SAM parameter i is converted from its own type toward implementation
   * parameter captureArity + i, with dynamic parameter i as the target type:
   * the captures fill the implementation's first parameters, and the SAM
   * arguments the rest.
   */
  lemma {:induction false} ArgConversionsTargets(p: Proxy, mt: MethodType, k: nat)
    requires Ready(p) && Forwardable(p, mt) && k <= |mt.params|
    ensures |Conversions(ArgConversions(p, mt, k))| == k
    ensures forall i :: 0 <= i < k ==>
      Conversions(ArgConversions(p, mt, k))[i]
      == Convert(mt.params[i], p.site.implMethodType.params[|Captures(p)| + i], p.site.dynamicMethodType.params[i])
  {
    if k > 0 {
      ArgConversionsTargets(p, mt, k - 1);
      var c := ArgConversion(p, mt, k - 1);
      ConversionsOf2(c[0], c[1]);
      ConversionsAppend(ArgConversions(p, mt, k - 1), c, Conversions(ArgConversions(p, mt, k - 1)), [c[1]]);
    }
  }

  /**
   * The `convertType` steps of a forwarder, in order: one per SAM argument,
   * toward the implementation parameter after the captures, then the
   * implementation's return type toward the SAM return type.
   */
  lemma ForwarderConversions(p: Proxy, mt: MethodType)
    requires Ready(p) && Forwardable(p, mt)
    ensures var cs := Conversions(ForwarderCode(p, mt));
      && |cs| == |mt.params| + 1
      && (forall i :: 0 <= i < |mt.params| ==>
            cs[i] == Convert(mt.params[i], p.site.implMethodType.params[|Captures(p)| + i], p.site.dynamicMethodType.params[i]))
      && cs[|mt.params|] == Convert(p.site.implMethodType.ret, mt.ret, mt.ret)
  {
    ForwarderConversionsSplit(p, mt);
    ArgConversionsTargets(p, mt, |mt.params|);
  }

  lemma ForwarderConversionsSplit(p: Proxy, mt: MethodType)
    requires Ready(p) && Forwardable(p, mt)
    ensures Conversions(ForwarderCode(p, mt))
      == Conversions(ArgConversions(p, mt, |mt.params|)) + [Convert(p.site.implMethodType.ret, mt.ret, mt.ret)]
  {
    var n := |Captures(p)|;
    var a, c, d, t := ForwarderPrelude(p), CaptureLoads(p, n), ArgConversions(p, mt, |mt.params|), ForwarderTail(p, mt);
    assert ForwarderCode(p, mt) == a + c + d + t;
    ForwarderPreludeConvertsNothing(p);
    CaptureLoadsConvertNothing(p, n);
    ForwarderTailConversions(p, mt);
    ConversionsAppend(a, c, [], []);
    ConversionsAppend(a + c, d, [], Conversions(d));
    ConversionsAppend(a + c + d, t, Conversions(d), [Convert(p.site.implMethodType.ret, mt.ret, mt.ret)]);
  }

  lemma ForwarderPreludeConvertsNothing(p: Proxy)
    ensures Conversions(ForwarderPrelude(p)) == []
  {
    ConversionsInert(ForwarderPrelude(p));
  }

  lemma ForwarderTailConversions(p: Proxy, mt: MethodType)
    requires Ready(p)
    ensures Conversions(ForwarderTail(p, mt)) == [Convert(p.site.implMethodType.ret, mt.ret, mt.ret)]
  {
    var t := ForwarderTail(p, mt);
    ConversionsOf3(t[0], t[1], t[2]);
  }

  // ---------------------------------------------------------------------
  // Serialization support
  // ---------------------------------------------------------------------

  /** One store reads field `arg$(i+1)` and leaves the operand stack as it found it. */
  lemma CaptureStoreShape(p: Proxy, i: nat)
    requires i < |Captures(p)|
    ensures FieldNames(CaptureStore(p, i), GETFIELD) == [ArgName(i)]
    ensures Depth(CaptureStore(p, i)) == 0
  {
    var c := CaptureStore(p, i);
    var x, y := [c[0], c[1], c[2]], [c[3], c[4], c[5]];
    assert c == x + y;
    NamesOf3(c[0], c[1], c[2], GETFIELD);
    NamesOf3(c[3], c[4], c[5], GETFIELD);
    NamesAppend(x, y, GETFIELD, [], [ArgName(i)]);
    DepthOf3(c[0], c[1], c[2]);
    DepthOf3(c[3], c[4], c[5]);
    DepthAppend(x, y, 3, -3);
  }

  lemma {:induction false} CaptureStoresReads(p: Proxy, k: nat)
    requires k <= |Captures(p)|
    ensures FieldNames(CaptureStores(p, k), GETFIELD) == ArgNames(k)
  {
    if k > 0 {
      CaptureStoresReads(p, k - 1);
      CaptureStoreShape(p, k - 1);
      NamesAppend(CaptureStores(p, k - 1), CaptureStore(p, k - 1), GETFIELD, ArgNames(k - 1), [ArgName(k - 1)]);
    }
  }

  lemma {:induction false} CaptureStoresDepth(p: Proxy, k: nat)
    requires k <= |Captures(p)|
    ensures Depth(CaptureStores(p, k)) == 0
  {
    if k > 0 {
      CaptureStoresDepth(p, k - 1);
      CaptureStoreShape(p, k - 1);
      DepthAppend(CaptureStores(p, k - 1), CaptureStore(p, k - 1), 0, 0);
    }
  }

  /** The constructor arguments of `SerializedLambda` are pushed without reading a field. */
  lemma SerializedLambdaArgsInert(p: Proxy)
    ensures FieldNames(SerializedLambdaArgs(p), GETFIELD) == []
  {
    var head := [TypeOp(NEW, NameSerializedLambda), Op(DUP)];
    var ldcs := Ldcs(SerializedLambdaConstants(p));
    var tail := [IConst(|Captures(p)|), TypeOp(ANEWARRAY, JavaLangObject)];
    NamesOf2(head[0], head[1], GETFIELD);
    NamesInert(ldcs, GETFIELD);
    NamesOf2(tail[0], tail[1], GETFIELD);
    NamesAppend(head, ldcs, GETFIELD, [], []);
    NamesAppend(head + ldcs, tail, GETFIELD, [], []);
  }

  /**
   * `writeReplace` puts every captured field, in order, into the array, and
   * each store leaves the stack as it found it.
   */
  lemma WriteReplaceStoresEveryCapture(p: Proxy)
    ensures FieldNames(WriteReplaceCode(p), GETFIELD) == ArgNames(|Captures(p)|)
    ensures Depth(CaptureStores(p, |Captures(p)|)) == 0
  {
    var head := SerializedLambdaArgs(p);
    var mid := CaptureStores(p, |Captures(p)|);
    var tail := [ Invoke(INVOKESPECIAL, NameSerializedLambda, NameCtor, DescrCtorSerializedLambda, false), Op(ARETURN) ];
    assert WriteReplaceCode(p) == head + mid + tail;
    CaptureStoresReads(p, |Captures(p)|);
    CaptureStoresDepth(p, |Captures(p)|);
    SerializedLambdaArgsInert(p);
    NamesOf2(tail[0], tail[1], GETFIELD);
    NamesAppend(head, mid, GETFIELD, [], ArgNames(|Captures(p)|));
    NamesAppend(head + mid, tail, GETFIELD, ArgNames(|Captures(p)|), []);
  }

  /** The array that `writeReplace` fills has exactly one element per capture. */
  lemma WriteReplaceArraySize(p: Proxy)
    ensures WriteReplaceCode(p)[11] == IConst(|Captures(p)|)
    ensures WriteReplaceCode(p)[12] == TypeOp(ANEWARRAY, JavaLangObject)
  {
    assert |SerializedLambdaArgs(p)| == 13;
  }

  /** Both hostile methods can only throw: they end in `athrow` and contain no return. */
  lemma HostileMethodsThrow()
    ensures forall m :: m in SerializationHostile ==>
      && m.Method? && m.exceptions == [NameNotSerializableException]
      && m.code[|m.code| - 1] == Op(ATHROW)
      && forall i :: 0 <= i < |m.code| ==> !(m.code[i].Op? && IRETURN <= m.code[i].opcode <= RETURN)
  {
  }

  lemma FirstIndexExtend<T>(xs: seq<T>, x: T, y: T)
    requires x in xs
    ensures FirstIndex(xs + [y], x) == FirstIndex(xs, x)
  {
    var k := FirstIndex(xs, x);
    var ys := xs + [y];
    assert ys[k] == x && ys[..k] == xs[..k];
    FirstIndexUnique(ys, x, k);
  }

  lemma FirstIndexUnique<T>(xs: seq<T>, x: T, k: nat)
    requires k < |xs| && xs[k] == x && x !in xs[..k]
    ensures FirstIndex(xs, x) == k
  {
    var f := FirstIndex(xs, x);
    assert forall j :: 0 <= j < k ==> xs[..k][j] == xs[j];
    assert forall j :: 0 <= j < f ==> xs[..f][j] == xs[j];
  }

  /**
   * The deduplicated list holds exactly the elements of the input, each once,
   * starting with the input's first element and ordered by first occurrence.
   */
  lemma DedupProperties<T>(xs: seq<T>)
    ensures forall x :: x in Dedup(xs) <==> x in xs
    ensures forall i, j :: 0 <= i < j < |Dedup(xs)| ==> Dedup(xs)[i] != Dedup(xs)[j]
    ensures xs != [] ==> |Dedup(xs)| > 0 && Dedup(xs)[0] == xs[0]
    ensures forall i, j :: 0 <= i < j < |Dedup(xs)| ==> FirstIndex(xs, Dedup(xs)[i]) < FirstIndex(xs, Dedup(xs)[j])
  {
    DedupMembers(xs);
    DedupDistinct(xs);
    DedupHead(xs);
    DedupOrdered(xs);
  }

  lemma {:induction false} DedupMembers<T>(xs: seq<T>)
    ensures forall x :: x in Dedup(xs) <==> x in xs
    decreases |xs|
  {
    if xs != [] {
      var pre := xs[..|xs| - 1];
      assert xs == pre + [xs[|xs| - 1]];
      DedupMembers(pre);
    }
  }

  lemma DedupMember<T>(xs: seq<T>, x: T)
    ensures x in Dedup(xs) <==> x in xs
  {
    DedupMembers(xs);
  }

  lemma {:induction false} DedupDistinct<T>(xs: seq<T>)
    ensures forall i, j :: 0 <= i < j < |Dedup(xs)| ==> Dedup(xs)[i] != Dedup(xs)[j]
    decreases |xs|
  {
    if xs != [] {
      DedupDistinct(xs[..|xs| - 1]);
    }
  }

  lemma {:induction false} DedupHead<T>(xs: seq<T>)
    ensures xs != [] ==> |Dedup(xs)| > 0 && Dedup(xs)[0] == xs[0]
    decreases |xs|
  {
    if xs != [] {
      var pre := xs[..|xs| - 1];
      DedupHead(pre);
      if pre == [] {
        assert Dedup(pre) == [];
      } else {
        assert pre[0] == xs[0];
      }
    }
  }

  lemma {:induction false} DedupOrdered<T>(xs: seq<T>)
    ensures forall x :: x in Dedup(xs) <==> x in xs
    ensures forall i, j :: 0 <= i < j < |Dedup(xs)| ==> FirstIndex(xs, Dedup(xs)[i]) < FirstIndex(xs, Dedup(xs)[j])
    decreases |xs|
  {
    DedupMembers(xs);
    if xs != [] {
      var pre := xs[..|xs| - 1];
      var y := xs[|xs| - 1];
      assert xs == pre + [y];
      DedupOrdered(pre);
      var d := Dedup(pre);
      forall x | x in d ensures x in pre {
        DedupMember(pre, x);
      }
      DedupMember(pre, y);
      OrderedAfterSnoc(pre, y, d);
    }
  }

  /** Appending to the input keeps the order of what was there and puts a new element last. */
  lemma OrderedAfterSnoc<T>(pre: seq<T>, y: T, d: seq<T>)
    requires forall x :: x in d ==> x in pre
    requires forall i, j :: 0 <= i < j < |d| ==> FirstIndex(pre, d[i]) < FirstIndex(pre, d[j])
    ensures forall i, j :: 0 <= i < j < |d| ==> FirstIndex(pre + [y], d[i]) < FirstIndex(pre + [y], d[j])
    ensures y !in pre ==>
      forall i, j :: 0 <= i < j < |d + [y]| ==> FirstIndex(pre + [y], (d + [y])[i]) < FirstIndex(pre + [y], (d + [y])[j])
  {
    var xs := pre + [y];
    FirstIndicesKept(pre, y, d);
    if y !in pre {
      var r := d + [y];
      FirstIndexUnique(xs, y, |pre|);
      forall i, j | 0 <= i < j < |r| ensures FirstIndex(xs, r[i]) < FirstIndex(xs, r[j]) {
        assert r[i] == d[i];
        if j < |d| {
          assert r[j] == d[j];
        } else {
          assert r[j] == y;
        }
      }
    }
  }

  /** What was already in the input keeps its first index when an element is appended. */
  lemma FirstIndicesKept<T>(pre: seq<T>, y: T, d: seq<T>)
    requires forall x :: x in d ==> x in pre
    ensures forall i :: 0 <= i < |d| ==> FirstIndex(pre + [y], d[i]) == FirstIndex(pre, d[i]) < |pre|
  {
    forall i | 0 <= i < |d| ensures FirstIndex(pre + [y], d[i]) == FirstIndex(pre, d[i]) < |pre| {
      assert d[i] in d;
      FirstIndexExtend(pre, d[i], y);
    }
  }

  /** The interface list starts with the functional interface and has no duplicate, which the class-file format forbids. */
  lemma InterfaceNamesDistinct(s: Site)
    ensures var names := InterfaceNames(s);
      && |names| > 0 && names[0] == InternalName(s.interfaceClass.name)
      && (forall i, j :: 0 <= i < j < |names| ==> names[i] != names[j])
  {
    if |s.altInterfaces| > 0 {
      DedupProperties([InternalName(s.interfaceClass.name)] + AltNames(s.altInterfaces));
    }
  }

  /** Every alternate interface is in the list. */
  lemma InterfaceNamesCover(s: Site)
    ensures forall k :: 0 <= k < |s.altInterfaces| ==> InternalName(s.altInterfaces[k].name) in InterfaceNames(s)
  {
    if |s.altInterfaces| > 0 {
      var all := [InternalName(s.interfaceClass.name)] + AltNames(s.altInterfaces);
      DedupProperties(all);
      forall k | 0 <= k < |s.altInterfaces| ensures InternalName(s.altInterfaces[k].name) in InterfaceNames(s) {
        assert all[k + 1] == InternalName(s.altInterfaces[k].name);
      }
    }
  }

  /** Nothing else is in the list: each entry is the functional interface or an alternate one. */
  lemma InterfaceNamesOnly(s: Site)
    ensures forall x :: x in InterfaceNames(s) ==>
      x == InternalName(s.interfaceClass.name) || exists k :: 0 <= k < |s.altInterfaces| && x == InternalName(s.altInterfaces[k].name)
  {
    if |s.altInterfaces| > 0 {
      var all := [InternalName(s.interfaceClass.name)] + AltNames(s.altInterfaces);
      DedupProperties(all);
      forall x | x in InterfaceNames(s)
        ensures x == InternalName(s.interfaceClass.name) || exists k :: 0 <= k < |s.altInterfaces| && x == InternalName(s.altInterfaces[k].name)
      {
        var i :| 0 <= i < |all| && all[i] == x;
        if i > 0 { assert x == InternalName(s.altInterfaces[i - 1].name); }
      }
    }
  }

  lemma {:induction false} CaptureFieldsAreFields(p: Proxy, k: nat)
    requires k <= |Captures(p)|
    ensures forall m :: m in CaptureFields(p, k) ==> m.Field? && m.access == ACC_PRIVATE + ACC_FINAL
  {
    if k > 0 { CaptureFieldsAreFields(p, k - 1); }
  }

  lemma {:induction false} AltForwardersArePublic(p: Proxy, k: nat)
    requires Ready(p) && k <= |p.site.altMethods|
    ensures forall m :: m in AltForwarders(p, k) ==> m.Method? && m.access == ACC_PUBLIC
  {
    if k > 0 { AltForwardersArePublic(p, k - 1); }
  }

  /**
   * Outside the two optional groups the plan's methods are the private
   * constructor and public forwarders: the header, the capture fields and
   * the end marker are not methods.
   */
  lemma FixedMembers(p: Proxy)
    requires Ready(p)
    ensures forall m :: m in PlanFront(p) && m.Method? ==> IsMethod(m, ACC_PRIVATE, NameCtor)
    ensures forall m :: m in Forwarders(p) ==> m.Method? && m.access == ACC_PUBLIC
  {
    CaptureFieldsAreFields(p, |Captures(p)|);
    AltForwardersArePublic(p, |p.site.altMethods|);
  }

  /** Methods flagged private final are the serialization members. */
  lemma PrivateFinalMethodsSerialize(p: Proxy, name: string)
    requires Ready(p)
    ensures forall m :: m in ClassPlan(p) && IsMethod(m, ACC_PRIVATE + ACC_FINAL, name) ==> m in SerializationMembers(p)
  {
    FixedMembers(p);
  }

  /** The plan has a private final `writeReplace` exactly for a serializable lambda. */
  lemma PlanHasWriteReplace(p: Proxy)
    requires Ready(p)
    ensures HasMethod(ClassPlan(p), ACC_PRIVATE + ACC_FINAL, NameWriteReplace) <==> p.site.isSerializable
  {
    PrivateFinalMethodsSerialize(p, NameWriteReplace);
    if p.site.isSerializable {
      assert SerializationFriendly(p)[0] in ClassPlan(p);
    }
  }

  /** The plan has a private final `writeObject` exactly for an accidentally serializable lambda. */
  lemma PlanHasWriteObject(p: Proxy)
    requires Ready(p)
    ensures HasMethod(ClassPlan(p), ACC_PRIVATE + ACC_FINAL, NameWriteObject) <==> AccidentallySerializable(p.site)
  {
    PrivateFinalMethodsSerialize(p, NameWriteObject);
    if AccidentallySerializable(p.site) {
      assert SerializationHostile[0] in ClassPlan(p);
    }
  }

  /** A lambda class is never both serialization-friendly and serialization-hostile. */
  lemma PlanSerializationExclusive(p: Proxy)
    requires Ready(p)
    ensures !(HasMethod(ClassPlan(p), ACC_PRIVATE + ACC_FINAL, NameWriteReplace)
              && HasMethod(ClassPlan(p), ACC_PRIVATE + ACC_FINAL, NameWriteObject))
  {
    PlanHasWriteReplace(p);
    PlanHasWriteObject(p);
  }

  /** Every member of the plan comes from one of its five parts. */
  lemma PlanParts(p: Proxy, m: Member)
    requires Ready(p) && m in ClassPlan(p)
    ensures m in PlanFront(p) || m in InitializerMembers(p) || m in Forwarders(p) || m in SerializationMembers(p) || m == ClassEnd
  {
  }

  /** The plan has a static `<clinit>` exactly when nothing is captured and eager initialization is off. */
  lemma PlanHasClinit(p: Proxy)
    requires Ready(p)
    ensures HasMethod(ClassPlan(p), ACC_STATIC, NameClinit) <==> HasClassInitializer(p)
  {
    FixedMembers(p);
    forall m | m in ClassPlan(p) && IsMethod(m, ACC_STATIC, NameClinit)
      ensures m in InitializerMembers(p)
    {
      PlanParts(p, m);
    }
    if HasClassInitializer(p) {
      assert ClassInitializer(p)[1] in ClassPlan(p);
    }
  }

  /**
   * The plan declares the `private static final LAMBDA_INSTANCE$` field
   * exactly when nothing is captured and eager initialization is off: the
   * capture fields are not static.
   */
  lemma PlanHasSingletonField(p: Proxy)
    requires Ready(p)
    ensures HasField(ClassPlan(p), ACC_PRIVATE + ACC_STATIC + ACC_FINAL, LambdaInstanceField) <==> HasClassInitializer(p)
  {
    CaptureFieldsAreFields(p, |Captures(p)|);
    FixedMembers(p);
    forall m | m in ClassPlan(p) && IsField(m, ACC_PRIVATE + ACC_STATIC + ACC_FINAL, LambdaInstanceField)
      ensures m in InitializerMembers(p)
    {
      PlanParts(p, m);
    }
    if HasClassInitializer(p) {
      assert ClassInitializer(p)[0] in ClassPlan(p);
    }
  }

  /**
   * Why the handle is used: the only `invokespecial` a forwarder emits
   * symbolically is a constructor call, so a private or super method
   * (`REF_invokeSpecial`) and a protected method of a class in another
   * package are always reached through `MethodHandle.invokeExact`.
   */
  lemma ImplCallKinds(p: Proxy)
    requires Ready(p)
    ensures ImplCall(p).Invoke?
    ensures ImplCall(p).opcode == INVOKESPECIAL <==> !p.useImplMethodHandle && p.site.implKind == REF_newInvokeSpecial
    ensures p.site.implKind == REF_invokeSpecial || (IsProtected(p.site.impl.modifiers) && !p.site.samePackage)
      ==> ImplCall(p).owner == NameMethodHandle && ImplCall(p).name == "invokeExact"
    ensures !p.useImplMethodHandle ==> ImplCall(p).owner == InternalName(p.site.implClass.name) && ImplCall(p).name == p.site.impl.name
  {
    InvocationOpcodePreimage(p.site.implKind);
  }
}
