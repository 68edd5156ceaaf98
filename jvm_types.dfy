/**
 * Java types as the lambda metafactory sees them (`Class<?>` values that
 * occur in a `MethodType`), their `Class.getName()` spelling and their
 * descriptors as defined in sections 4.3.2 (field descriptors) and 4.3.3
 * (method descriptors) of The Java Virtual Machine Specification.
 */
module JvmTypes {
  import opened Wrappers
  import opened Text

  datatype Prim = Boolean | Byte | Char | Short | Int | Long | Float | Double | Void

  /** A class object: a primitive type (including `void`), a named class or interface, or an array type. */
  datatype JType = Primitive(p: Prim) | Ref(name: string) | Array(elem: JType)

  /** A `MethodType`: parameter types and return type. */
  datatype MethodType = MethodType(params: seq<JType>, ret: JType)

  /** `MethodType` refuses `void` as a parameter type, and no array has `void` elements. */
  predicate NoVoid(t: JType)
  {
    match t
    case Primitive(p) => p != Void
    case Ref(_) => true
    case Array(e) => NoVoid(e) && e != Primitive(Void)
  }

  predicate WellFormedMethodType(mt: MethodType)
  {
    (forall i :: 0 <= i < |mt.params| ==> NoVoid(mt.params[i])) &&
    (mt.ret == Primitive(Void) || NoVoid(mt.ret))
  }

  /**
   * A binary class name as Java source produces it: not empty, and free of the
   * characters that descriptors and the rendered signatures use as delimiters.
   */
  predicate LegalName(n: string)
  {
    |n| > 0 && forall c :: c in n ==> c != ';' && c != '/' && c != ',' && c != '(' && c != ')'
  }

  predicate WellNamed(t: JType)
  {
    match t
    case Primitive(_) => true
    case Ref(n) => LegalName(n)
    case Array(e) => WellNamed(e)
  }

  function PrimName(p: Prim): string
  {
    match p
    case Boolean => "boolean"
    case Byte => "byte"
    case Char => "char"
    case Short => "short"
    case Int => "int"
    case Long => "long"
    case Float => "float"
    case Double => "double"
    case Void => "void"
  }

  /** The one-letter base type of section 4.3.2 of The Java Virtual Machine Specification (and V for void, section 4.3.3 of the same). */
  function PrimCode(p: Prim): char
  {
    match p
    case Boolean => 'Z'
    case Byte => 'B'
    case Char => 'C'
    case Short => 'S'
    case Int => 'I'
    case Long => 'J'
    case Float => 'F'
    case Double => 'D'
    case Void => 'V'
  }

  function PrimOfCode(c: char): (r: Option<Prim>)
    ensures r.Some? ==> PrimCode(r.value) == c
  {
    match c
    case 'Z' => Some(Boolean)
    case 'B' => Some(Byte)
    case 'C' => Some(Char)
    case 'S' => Some(Short)
    case 'I' => Some(Int)
    case 'J' => Some(Long)
    case 'F' => Some(Float)
    case 'D' => Some(Double)
    case 'V' => Some(Void)
    case _ => None
  }

  /** The descriptor with dots kept, as `Class.getName()` spells array element types. */
  function DottedDescriptor(t: JType): string
  {
    match t
    case Primitive(p) => [PrimCode(p)]
    case Ref(n) => "L" + n + ";"
    case Array(e) => "[" + DottedDescriptor(e)
  }

  /** `Class.getName()`: the keyword for a primitive, the binary name for a class, "[" + element descriptor for an array. */
  function Name(t: JType): string
  {
    match t
    case Primitive(p) => PrimName(p)
    case Ref(n) => n
    case Array(e) => "[" + DottedDescriptor(e)
  }

  /** A field descriptor (section 4.3.2 of The Java Virtual Machine Specification), as `BytecodeDescriptor.unparse` and `Class.descriptorString` give it. */
  function Descriptor(t: JType): string
  {
    match t
    case Primitive(p) => [PrimCode(p)]
    case Ref(n) => RefDescriptor(n)
    case Array(e) => "[" + Descriptor(e)
  }

  /**
   * `Class.descriptorString` of a class named `n`. A hidden class is the only
   * class whose name holds a '/', the one between its binary name and its
   * suffix: its descriptor writes that '/' as '.', and the binary name's '.'
   * as '/' like any other class.
   */
  function RefDescriptor(n: string): string
  {
    var k := IndexOf(n, '/');
    if k == |n| then "L" + Replace(n, '.', '/') + ";"
    else "L" + Replace(n[..k], '.', '/') + "." + n[k + 1..] + ";"
  }

  /** A hidden class `binary/suffix` is described as `L`, the binary name with '/' separators, '.', the suffix and ';'. */
  lemma HiddenClassDescriptor(binary: string, suffix: string)
    requires '/' !in binary
    ensures Descriptor(Ref(binary + "/" + suffix)) == "L" + Replace(binary, '.', '/') + "." + suffix + ";"
  {
    var n := binary + "/" + suffix;
    forall j | 0 <= j < |binary| ensures n[j] != '/' {
      assert n[j] == binary[j];
      assert binary[j] in binary;
    }
    assert n[|binary|] == '/';
    assert IndexOf(n, '/') == |binary|;
    assert n[..|binary|] == binary;
    assert n[|binary| + 1..] == suffix;
  }

  /** The descriptor of a class holds a '.' exactly when the class is hidden. */
  lemma DescriptorMarksHidden(n: string)
    ensures '.' in Descriptor(Ref(n)) <==> '/' in n
  {
    var k := IndexOf(n, '/');
    if k == |n| {
      assert '/' !in n by {
        forall c | c in n ensures c != '/' { }
      }
      assert '.' !in "L" + Replace(n, '.', '/') + ";";
    } else {
      assert n[k] in n;
      var d := "L" + Replace(n[..k], '.', '/') + "." + n[k + 1..] + ";";
      assert d[1 + k] == '.';
    }
  }

  function Descriptors(ts: seq<JType>): string
  {
    if ts == [] then "" else Descriptor(ts[0]) + Descriptors(ts[1..])
  }

  /** `MethodType.toMethodDescriptorString()` (section 4.3.3 of The Java Virtual Machine Specification). */
  function MethodDescriptor(mt: MethodType): string
  {
    "(" + Descriptors(mt.params) + ")" + Descriptor(mt.ret)
  }

  // ---------------------------------------------------------------------
  // Reading descriptors back
  // ---------------------------------------------------------------------

  /** Reads one field descriptor from the front of `s`; returns the type and what follows it. */
  function ParseField(s: string): (r: Option<(JType, string)>)
    ensures r.Some? ==> |r.value.1| < |s|
    decreases |s|
  {
    if s == [] then None
    else match PrimOfCode(s[0])
      case Some(p) => Some((Primitive(p), s[1..]))
      case None =>
        if s[0] == '[' then
          match ParseField(s[1..])
          case None => None
          case Some((e, rest)) => Some((Array(e), rest))
        else if s[0] == 'L' then
          var body := s[1..];
          var k := IndexOf(body, ';');
          if k == |body| then None else Some((Ref(Replace(body[..k], '/', '.')), body[k + 1..]))
        else None
  }

  /** Reads field descriptors up to and including the closing ')'. */
  function ParseParams(s: string): (r: Option<(seq<JType>, string)>)
    decreases |s|
  {
    if s == [] then None
    else if s[0] == ')' then Some(([], s[1..]))
    else match ParseField(s)
      case None => None
      case Some((t, rest)) =>
        match ParseParams(rest)
        case None => None
        case Some((ts, rest')) => Some(([t] + ts, rest'))
  }

  function ParseMethodDescriptor(s: string): Option<MethodType>
  {
    if s == [] || s[0] != '(' then None
    else match ParseParams(s[1..])
      case None => None
      case Some((ps, rest)) =>
        match ParseField(rest)
        case Some((ret, tail)) => if tail == [] then Some(MethodType(ps, ret)) else None
        case None => None
  }

  lemma ReplaceBack(s: string, from: char, to: char)
    requires to !in s
    ensures Replace(Replace(s, from, to), to, from) == s
  {
    var r := Replace(Replace(s, from, to), to, from);
    forall i | 0 <= i < |s| ensures r[i] == s[i] {
      assert s[i] in s;
    }
  }

  /** A field descriptor is read back as the type it describes, whatever follows it. */
  lemma {:induction false} ParseFieldDescriptor(t: JType, rest: string)
    requires WellNamed(t)
    ensures ParseField(Descriptor(t) + rest) == Some((t, rest))
  {
    var s := Descriptor(t) + rest;
    match t
    case Primitive(p) =>
      assert s[0] == PrimCode(p);
      assert s[1..] == rest;
    case Array(e) =>
      assert s[0] == '[';
      assert s[1..] == Descriptor(e) + rest;
      ParseFieldDescriptor(e, rest);
    case Ref(n) =>
      ParseRefDescriptor(n, rest);
  }

  lemma ParseRefDescriptor(n: string, rest: string)
    requires LegalName(n)
    ensures ParseField(Descriptor(Ref(n)) + rest) == Some((Ref(n), rest))
  {
    assert '/' !in n by {
      forall c | c in n ensures c != '/' { }
    }
    assert IndexOf(n, '/') == |n|;
    var s := Descriptor(Ref(n)) + rest;
    var m := Replace(n, '.', '/');
    assert s == "L" + m + ";" + rest;
    assert s[0] == 'L';
    var body := s[1..];
    assert body == m + ";" + rest;
    forall j | 0 <= j < |m| ensures body[j] != ';' {
      assert n[j] in n;
    }
    assert body[|m|] == ';';
    assert IndexOf(body, ';') == |m|;
    assert body[..|m|] == m;
    assert body[|m| + 1..] == rest;
    ReplaceBack(n, '.', '/');
  }

  lemma {:induction false} ParseParamsDescriptors(ts: seq<JType>, rest: string)
    requires forall i :: 0 <= i < |ts| ==> WellNamed(ts[i])
    ensures ParseParams(Descriptors(ts) + ")" + rest) == Some((ts, rest))
    decreases |ts|
  {
    var s := Descriptors(ts) + ")" + rest;
    if ts == [] {
      assert s == ")" + rest;
    } else {
      var tail := Descriptors(ts[1..]) + ")" + rest;
      assert s == Descriptor(ts[0]) + tail;
      ParseFieldDescriptor(ts[0], tail);
      assert s[0] != ')' by {
        match ts[0]
        case Primitive(p) =>
        case Ref(n) =>
        case Array(e) =>
      }
      ParseParamsDescriptors(ts[1..], rest);
      assert [ts[0]] + ts[1..] == ts;
    }
  }

  /** A method descriptor determines its method type: reading it back gives the same type. */
  lemma MethodDescriptorRoundTrip(mt: MethodType)
    requires forall i :: 0 <= i < |mt.params| ==> WellNamed(mt.params[i])
    requires WellNamed(mt.ret)
    ensures ParseMethodDescriptor(MethodDescriptor(mt)) == Some(mt)
  {
    var s := MethodDescriptor(mt);
    assert s[1..] == Descriptors(mt.params) + ")" + Descriptor(mt.ret);
    ParseParamsDescriptors(mt.params, Descriptor(mt.ret));
    ParseFieldDescriptor(mt.ret, []);
    assert Descriptor(mt.ret) + [] == Descriptor(mt.ret);
  }

  /** Hence two method types with the same descriptor are the same type. */
  lemma MethodDescriptorInjective(a: MethodType, b: MethodType)
    requires forall i :: 0 <= i < |a.params| ==> WellNamed(a.params[i])
    requires forall i :: 0 <= i < |b.params| ==> WellNamed(b.params[i])
    requires WellNamed(a.ret) && WellNamed(b.ret)
    requires MethodDescriptor(a) == MethodDescriptor(b)
    ensures a == b
  {
    MethodDescriptorRoundTrip(a);
    MethodDescriptorRoundTrip(b);
  }
}
