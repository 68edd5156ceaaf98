/**
 * Naming of the lambda proxy class: the simple name derived from the caller's
 * class, and the stable name that appends a 64-bit hash of every call-site
 * input, printed in hexadecimal.
 */
module LambdaNaming {
  import opened Wrappers
  import opened Text
  import opened JvmTypes
  import opened LambdaSite

  const LambdaSuffix := "$$Lambda"

  /**
   * `createNameFromTargetClass`: a hidden class's name first has every '/'
   * turned into '_', then every '.' becomes '/', then "$$Lambda" is appended.
   */
  function CreateNameFromTargetClass(c: ClassInfo): (r: string)
    ensures |r| == |c.name| + |LambdaSuffix|
    ensures r[|c.name|..] == LambdaSuffix
    ensures '.' !in r
    ensures c.hidden ==> forall i :: 0 <= i < |c.name| ==> (r[i] == '/' <==> c.name[i] == '.')
  {
    var name := if c.hidden then Replace(c.name, '/', '_') else c.name;
    Replace(name, '.', '/') + LambdaSuffix
  }

  /**
   * The internal name keeps everything but the separators: turning '/' back
   * into '.' gives the binary name of an ordinary class, and of a hidden class
   * the name with its '/' shown as '_'.
   */
  lemma SimpleNameRecoversClassName(c: ClassInfo)
    ensures var r := CreateNameFromTargetClass(c);
      !c.hidden && '/' !in c.name ==> Replace(r[..|c.name|], '/', '.') == c.name
    ensures var r := CreateNameFromTargetClass(c);
      c.hidden ==> Replace(r[..|c.name|], '/', '.') == Replace(c.name, '/', '_')
  {
    var r := CreateNameFromTargetClass(c);
    var name := if c.hidden then Replace(c.name, '/', '_') else c.name;
    assert r[..|c.name|] == Replace(name, '.', '/');
    if c.hidden || '/' !in c.name {
      assert '/' !in name;
      ReplaceBack(name, '.', '/');
    }
  }

  // ---------------------------------------------------------------------
  // The two bit streams
  // ---------------------------------------------------------------------

  const Mask1: bv8 := 0xAA  // 0b10101010
  const Mask2: bv8 := 0x55  // 0b01010101

  /** `c & mask` on the 16-bit char: only the low byte can survive either mask. */
  function MaskBits(c: char, mask: bv8): bv8
  {
    ((c as int % 256) as bv8) & mask
  }

  function MaskChar(c: char, mask: bv8): char
  {
    MaskBits(c, mask) as int as char
  }

  function Mask(s: string, mask: bv8): (r: string)
    ensures |r| == |s|
  {
    seq(|s|, i requires 0 <= i < |s| => MaskChar(s[i], mask))
  }

  lemma MaskAppend(a: string, b: string, mask: bv8)
    ensures Mask(a + b, mask) == Mask(a, mask) + Mask(b, mask)
  {
    var l, r := Mask(a + b, mask), Mask(a, mask) + Mask(b, mask);
    forall i | 0 <= i < |l| ensures l[i] == r[i] {
      if i < |a| { assert (a + b)[i] == a[i]; } else { assert (a + b)[i] == b[i - |a|]; }
    }
  }

  /**
   * The two streams split each character's low byte: their bits are disjoint,
   * together they give the low byte back, and the high byte plays no part.
   */
  lemma MasksSplitLowByte(c: char, d: char)
    ensures MaskBits(c, Mask1) & MaskBits(c, Mask2) == 0
    ensures MaskBits(c, Mask1) | MaskBits(c, Mask2) == (c as int % 256) as bv8
    ensures c as int % 256 == d as int % 256 ==>
      MaskChar(c, Mask1) == MaskChar(d, Mask1) && MaskChar(c, Mask2) == MaskChar(d, Mask2)
  {
  }

  /** A `StringBuilder` that is only appended to. */
  class StringBuilder {
    var value: string

    constructor ()
      ensures value == []
    {
      value := [];
    }

    method Append(c: char)
      modifies this
      ensures value == old(value) + [c]
    {
      value := value + [c];
    }
  }

  /** `appendData`: each character of `data` goes, masked, onto both streams. */
  method AppendData(hashData1: StringBuilder, hashData2: StringBuilder, data: string)
    requires hashData1 != hashData2
    modifies hashData1, hashData2
    ensures hashData1.value == old(hashData1.value) + Mask(data, Mask1)
    ensures hashData2.value == old(hashData2.value) + Mask(data, Mask2)
  {
    for i := 0 to |data|
      invariant hashData1.value == old(hashData1.value) + Mask(data[..i], Mask1)
      invariant hashData2.value == old(hashData2.value) + Mask(data[..i], Mask2)
    {
      MaskAppend(data[..i], [data[i]], Mask1);
      MaskAppend(data[..i], [data[i]], Mask2);
      assert data[..i + 1] == data[..i] + [data[i]];
      hashData1.Append(MaskChar(data[i], Mask1));
      hashData2.Append(MaskChar(data[i], Mask2));
    }
    assert data[..|data|] == data;
  }

  // ---------------------------------------------------------------------
  // UTF-8 and CRC-32
  // ---------------------------------------------------------------------

  type byte = x: int | 0 <= x < 256

  /** Every character fits in one byte, as every masked character does. */
  predicate Latin1(s: string)
  {
    forall i :: 0 <= i < |s| ==> s[i] as int < 256
  }

  lemma MaskIsLatin1(s: string, mask: bv8)
    ensures Latin1(Mask(s, mask))
  {
  }

  /** `String.getBytes(UTF_8)` for characters below U+0100: one byte below 0x80, two from 0x80 on. */
  function Utf8(s: string): (b: seq<byte>)
    requires Latin1(s)
    ensures |b| >= |s|
  {
    if s == [] then []
    else
      var c := s[0] as int;
      (if c < 0x80 then [c] else [0xC0 + c / 64, 0x80 + c % 64]) + Utf8(s[1..])
  }

  /** Decoding of one- and two-byte UTF-8 sequences. */
  function Utf8Decode(b: seq<byte>): Option<string>
  {
    if b == [] then Some([])
    else if b[0] < 0x80 then
      match Utf8Decode(b[1..])
      case Some(s) => Some([b[0] as char] + s)
      case None => None
    else if 0xC0 <= b[0] < 0xE0 && |b| >= 2 && 0x80 <= b[1] < 0xC0 then
      match Utf8Decode(b[2..])
      case Some(s) => Some([((b[0] as int - 0xC0) * 64 + (b[1] as int - 0x80)) as char] + s)
      case None => None
    else None
  }

  /** The encoding loses nothing. */
  lemma {:induction false} Utf8RoundTrip(s: string)
    requires Latin1(s)
    ensures Utf8Decode(Utf8(s)) == Some(s)
  {
    if s != [] {
      var c := s[0] as int;
      Utf8RoundTrip(s[1..]);
      var b := Utf8(s);
      if c < 0x80 {
        assert b[1..] == Utf8(s[1..]);
      } else {
        assert b[2..] == Utf8(s[1..]);
        assert (0xC0 + c / 64 - 0xC0) * 64 + (0x80 + c % 64 - 0x80) == c;
      }
      assert [s[0]] + s[1..] == s;
    }
  }

  /** Characters below 0x80, as every stream-2 character is, take one byte each. */
  lemma {:induction false} Utf8Ascii(s: string)
    requires forall i :: 0 <= i < |s| ==> s[i] as int < 0x80
    ensures |Utf8(s)| == |s|
  {
    if s != [] { Utf8Ascii(s[1..]); }
  }

  lemma Stream2IsAscii(s: string)
    ensures forall i :: 0 <= i < |s| ==> Mask(s, Mask2)[i] as int < 0x80
    ensures |Utf8(Mask(s, Mask2))| == |s|
  {
    forall i | 0 <= i < |s| ensures Mask(s, Mask2)[i] as int < 0x80 {
      var x := (s[i] as int % 256) as bv8;
      assert (x & 0x55) as int <= 0x55;
    }
    Utf8Ascii(Mask(s, Mask2));
  }

  /** The reflected CRC-32 polynomial of section 8 of RFC 1952. */
  const CrcPolynomial: bv32 := 0xEDB8_8320

  function CrcShift(c: bv32, k: nat): bv32
    decreases k
  {
    if k == 0 then c else CrcShift(if c & 1 == 1 then (c >> 1) ^ CrcPolynomial else c >> 1, k - 1)
  }

  /** One byte through the register: eight shifts, each folding in the polynomial when a one drops out. */
  function CrcByte(c: bv32, b: byte): bv32
  {
    CrcShift(c ^ (b as bv32), 8)
  }

  /** `CRC32.update` on a register value (complemented) and some bytes. */
  function CrcUpdate(c: bv32, b: seq<byte>): bv32
    decreases |b|
  {
    if b == [] then c else CrcUpdate(CrcByte(c, b[0]), b[1..])
  }

  /** Feeding the bytes in pieces gives the checksum of the whole. */
  lemma {:induction false} CrcUpdateAppend(c: bv32, a: seq<byte>, b: seq<byte>)
    ensures CrcUpdate(c, a + b) == CrcUpdate(CrcUpdate(c, a), b)
    decreases |a|
  {
    if a == [] {
      assert a + b == b;
    } else {
      assert (a + b)[0] == a[0];
      assert (a + b)[1..] == a[1..] + b;
      CrcUpdateAppend(CrcByte(c, a[0]), a[1..], b);
    }
  }

  /** CRC-32 of a byte string, as `CRC32.getValue()` after one `update`. */
  function Crc32(b: seq<byte>): bv32
  {
    CrcUpdate(0xFFFF_FFFF, b) ^ 0xFFFF_FFFF
  }

  /** `hashStringToLong`: the CRC-32 of the UTF-8 bytes, a `long` in [0, 2^32). */
  function HashStringToLong(hashData: string): (h: nat)
    requires Latin1(hashData)
    ensures h < 0x1_0000_0000
  {
    Crc32(Utf8(hashData)) as int
  }

  // ---------------------------------------------------------------------
  // Packing and printing the hash
  // ---------------------------------------------------------------------

  const Two32 := 0x1_0000_0000

  /**
   * `lo | (hi << 32)` read as an unsigned 64-bit value: `lo` is the low word
   * and `hi` the high word, so both can be recovered.
   */
  function Pack(lo: nat, hi: nat): (r: nat)
    requires lo < Two32 && hi < Two32
    ensures r < Two32 * Two32
    ensures r % Two32 == lo && r / Two32 == hi
  {
    lo + hi * Two32
  }

  /** With `lo` below 2^32, or-ing in the shifted high word is adding it. */
  lemma OrOfDisjointWordsIsSum(lo: bv64, hi: bv64)
    requires lo < 0x1_0000_0000
    ensures lo | (hi << 32) == lo + (hi << 32)
  {
  }

  lemma SixteenHexDigits()
    ensures Pow(16, 16) == Two32 * Two32
  {
    assert Pow(16, 1) == 16;
    assert Pow(16, 2) == 0x100;
    assert Pow(16, 3) == 0x1000;
    assert Pow(16, 4) == 0x1_0000;
    assert Pow(16, 5) == 0x10_0000;
    assert Pow(16, 6) == 0x100_0000;
    assert Pow(16, 7) == 0x1000_0000;
    assert Pow(16, 8) == 0x1_0000_0000;
    assert Pow(16, 9) == 0x10_0000_0000;
    assert Pow(16, 10) == 0x100_0000_0000;
    assert Pow(16, 11) == 0x1000_0000_0000;
    assert Pow(16, 12) == 0x1_0000_0000_0000;
    assert Pow(16, 13) == 0x10_0000_0000_0000;
    assert Pow(16, 14) == 0x100_0000_0000_0000;
    assert Pow(16, 15) == 0x1000_0000_0000_0000;
    assert Pow(16, 16) == 0x1_0000_0000_0000_0000;
  }

  /** `hashToHexString`: the packed checksums as `Long.toHexString` prints them. */
  function HashToHexString(hashData1: string, hashData2: string): (r: string)
    requires Latin1(hashData1) && Latin1(hashData2)
    ensures 1 <= |r| <= 16
    ensures forall i :: 0 <= i < |r| ==> IsDigit(r[i], 16)
    ensures |r| > 1 ==> r[0] != '0'
    ensures ParseDigits(r, 16) % Two32 == HashStringToLong(hashData1)
    ensures ParseDigits(r, 16) / Two32 == HashStringToLong(hashData2)
  {
    var v := Pack(HashStringToLong(hashData1), HashStringToLong(hashData2));
    SixteenHexDigits();
    ToDigitsLength(v, 16, 16);
    ParseToDigits(v, 16);
    ToDigits(v, 16)
  }

  // ---------------------------------------------------------------------
  // Signatures and the hash input
  // ---------------------------------------------------------------------

  function Names(ts: seq<JType>): (r: seq<string>)
    ensures |r| == |ts|
    ensures forall i :: 0 <= i < |ts| ==> r[i] == Name(ts[i])
  {
    if ts == [] then [] else [Name(ts[0])] + Names(ts[1..])
  }

  /** `getQualifiedSignature`: "(" + parameter names joined by "," + ")" + return type name. */
  function QualifiedSignature(mt: MethodType): string
  {
    "(" + Join(Names(mt.params), ',') + ")" + Name(mt.ret)
  }

  /** Reads a qualified signature back into its parameter and return type names. */
  function ParseQualifiedSignature(s: string): Option<(seq<string>, string)>
  {
    if s == [] || s[0] != '(' then None
    else
      var body := s[1..];
      var k := IndexOf(body, ')');
      if k == |body| then None
      else Some((if k == 0 then [] else Split(body[..k], ','), body[k + 1..]))
  }

  lemma NameIsLegal(t: JType)
    requires WellNamed(t)
    ensures |Name(t)| > 0
    ensures forall c :: c in Name(t) ==> c != ',' && c != ')'
  {
    match t
    case Primitive(p) =>
    case Ref(n) =>
    case Array(e) => DottedIsLegal(e);
  }

  lemma {:induction false} DottedIsLegal(t: JType)
    requires WellNamed(t)
    ensures forall c :: c in DottedDescriptor(t) ==> c != ',' && c != ')'
  {
    match t
    case Primitive(p) =>
    case Ref(n) =>
    case Array(e) => DottedIsLegal(e);
  }

  lemma {:induction false} JoinFree(xs: seq<string>, sep: char, c: char)
    requires sep != c && Free(xs, c)
    ensures c !in Join(xs, sep)
    decreases |xs|
  {
    if |xs| > 1 {
      assert xs[0] in xs;
      assert Free(xs[1..], c) by {
        forall y | y in xs[1..] ensures c !in y { assert y in xs; }
      }
      JoinFree(xs[1..], sep, c);
    } else if |xs| == 1 {
      assert xs[0] in xs;
    }
  }

  /**
   * The rendered signature determines the names of the parameter types and
   * of the return type, given Java-legal class names.
   */
  lemma QualifiedSignatureRoundTrip(mt: MethodType)
    requires forall i :: 0 <= i < |mt.params| ==> WellNamed(mt.params[i])
    requires WellNamed(mt.ret)
    ensures ParseQualifiedSignature(QualifiedSignature(mt)) == Some((Names(mt.params), Name(mt.ret)))
  {
    var ns := Names(mt.params);
    var j := Join(ns, ',');
    var s := QualifiedSignature(mt);
    assert Free(ns, ')') && Free(ns, ',') by {
      forall x | x in ns ensures ')' !in x && ',' !in x {
        var i :| 0 <= i < |ns| && ns[i] == x;
        NameIsLegal(mt.params[i]);
      }
    }
    JoinFree(ns, ',', ')');
    var body := s[1..];
    assert body == j + ")" + Name(mt.ret);
    forall i | 0 <= i < |j| ensures body[i] != ')' {
      assert body[i] == j[i];
      assert j[i] in j;
    }
    assert body[|j|] == ')';
    assert IndexOf(body, ')') == |j|;
    assert body[..|j|] == j;
    assert body[|j| + 1..] == Name(mt.ret);
    if ns == [] {
      assert j == [];
    } else {
      NameIsLegal(mt.params[0]);
      assert |j| > 0 by {
        if |ns| == 1 { assert j == ns[0]; } else { assert j == ns[0] + [','] + Join(ns[1..], ','); }
      }
      SplitJoin(ns, ',');
    }
  }

  function Concat(xs: seq<string>): string
  {
    if xs == [] then [] else xs[0] + Concat(xs[1..])
  }

  lemma {:induction false} ConcatSnoc(xs: seq<string>, x: string)
    ensures Concat(xs + [x]) == Concat(xs) + x
    decreases |xs|
  {
    if xs == [] {
      assert [x][1..] == [];
    } else {
      assert (xs + [x])[1..] == xs[1..] + [x];
      ConcatSnoc(xs[1..], x);
    }
  }

  function ClassNames(cs: seq<ClassInfo>): (r: seq<string>)
    ensures |r| == |cs| && forall i :: 0 <= i < |cs| ==> r[i] == cs[i].name
  {
    if cs == [] then [] else [cs[0].name] + ClassNames(cs[1..])
  }

  function Signatures(ms: seq<MethodType>): (r: seq<string>)
    ensures |r| == |ms| && forall i :: 0 <= i < |ms| ==> r[i] == QualifiedSignature(ms[i])
  {
    if ms == [] then [] else [QualifiedSignature(ms[0])] + Signatures(ms[1..])
  }

  /**
   * The pieces fed to the hash, in their fixed order: interface method name,
   * factory, interface and dynamic signatures around the implementation's
   * member name, then every alternate interface name, then every alternate
   * method signature.
   */
  function HashPieces(s: Site): seq<string>
  {
    [ s.interfaceMethodName,
      QualifiedSignature(s.factoryType),
      QualifiedSignature(s.interfaceMethodType),
      s.impl.memberName,
      QualifiedSignature(s.dynamicMethodType) ]
    + ClassNames(s.altInterfaces)
    + Signatures(s.altMethods)
  }

  /** The stable name: the simple name followed by the hash of all pieces. */
  function StableName(s: Site): string
  {
    var input := Concat(HashPieces(s));
    MaskIsLatin1(input, Mask1);
    MaskIsLatin1(input, Mask2);
    CreateNameFromTargetClass(s.targetClass) + HashToHexString(Mask(input, Mask1), Mask(input, Mask2))
  }

  /**
   * `stableLambdaClassName`: feeds the pieces to the two streams one after
   * another and appends the printed hash to the simple name.
   */
  method StableLambdaClassName(s: Site) returns (name: string)
    ensures name == StableName(s)
  {
    var base := CreateNameFromTargetClass(s.targetClass);
    var hashData1 := new StringBuilder();
    var hashData2 := new StringBuilder();
    AppendData(hashData1, hashData2, s.interfaceMethodName);
    ghost var fed := s.interfaceMethodName;
    assert hashData1.value == Mask(fed, Mask1) && hashData2.value == Mask(fed, Mask2);
    AppendData(hashData1, hashData2, QualifiedSignature(s.factoryType));
    fed := Fed(fed, QualifiedSignature(s.factoryType));
    AppendData(hashData1, hashData2, QualifiedSignature(s.interfaceMethodType));
    fed := Fed(fed, QualifiedSignature(s.interfaceMethodType));
    AppendData(hashData1, hashData2, s.impl.memberName);
    fed := Fed(fed, s.impl.memberName);
    AppendData(hashData1, hashData2, QualifiedSignature(s.dynamicMethodType));
    fed := Fed(fed, QualifiedSignature(s.dynamicMethodType));

    AppendEach(hashData1, hashData2, ClassNames(s.altInterfaces));
    fed := Fed(fed, Concat(ClassNames(s.altInterfaces)));
    AppendEach(hashData1, hashData2, Signatures(s.altMethods));
    fed := Fed(fed, Concat(Signatures(s.altMethods)));
    HashInputOrder(s);
    MaskIsLatin1(fed, Mask1);
    MaskIsLatin1(fed, Mask2);
    name := base + HashToHexString(hashData1.value, hashData2.value);
  }

  /** Appends every piece, in order, to both streams. */
  method AppendEach(hashData1: StringBuilder, hashData2: StringBuilder, pieces: seq<string>)
    requires hashData1 != hashData2
    modifies hashData1, hashData2
    ensures hashData1.value == old(hashData1.value) + Mask(Concat(pieces), Mask1)
    ensures hashData2.value == old(hashData2.value) + Mask(Concat(pieces), Mask2)
  {
    for k := 0 to |pieces|
      invariant hashData1.value == old(hashData1.value) + Mask(Concat(pieces[..k]), Mask1)
      invariant hashData2.value == old(hashData2.value) + Mask(Concat(pieces[..k]), Mask2)
    {
      AppendData(hashData1, hashData2, pieces[k]);
      ConcatPrefix(pieces, k);
      MaskAppend(Concat(pieces[..k]), pieces[k], Mask1);
      MaskAppend(Concat(pieces[..k]), pieces[k], Mask2);
      Assoc(old(hashData1.value), Mask(Concat(pieces[..k]), Mask1), Mask(pieces[k], Mask1));
      Assoc(old(hashData2.value), Mask(Concat(pieces[..k]), Mask2), Mask(pieces[k], Mask2));
    }
    assert pieces[..|pieces|] == pieces;
  }

  /** Feeding one more piece extends both streams by its masks. */
  lemma Fed(fed: string, piece: string) returns (next: string)
    ensures next == fed + piece
    ensures Mask(next, Mask1) == Mask(fed, Mask1) + Mask(piece, Mask1)
    ensures Mask(next, Mask2) == Mask(fed, Mask2) + Mask(piece, Mask2)
  {
    next := fed + piece;
    MaskAppend(fed, piece, Mask1);
    MaskAppend(fed, piece, Mask2);
  }

  lemma ConcatPrefix(xs: seq<string>, k: nat)
    requires k < |xs|
    ensures Concat(xs[..k + 1]) == Concat(xs[..k]) + xs[k]
  {
    assert xs[..k + 1] == xs[..k] + [xs[k]];
    ConcatSnoc(xs[..k], xs[k]);
  }

  lemma {:induction false} ConcatAppend(xs: seq<string>, ys: seq<string>)
    ensures Concat(xs + ys) == Concat(xs) + Concat(ys)
    decreases |xs|
  {
    if xs == [] {
      assert xs + ys == ys;
    } else {
      assert (xs + ys)[1..] == xs[1..] + ys;
      ConcatAppend(xs[1..], ys);
    }
  }

  /** The hash input is the pieces concatenated in their fixed order. */
  lemma HashInputOrder(s: Site)
    ensures Concat(HashPieces(s)) ==
      s.interfaceMethodName + QualifiedSignature(s.factoryType) + QualifiedSignature(s.interfaceMethodType)
      + s.impl.memberName + QualifiedSignature(s.dynamicMethodType)
      + Concat(ClassNames(s.altInterfaces)) + Concat(Signatures(s.altMethods))
  {
    var fixed := [ s.interfaceMethodName, QualifiedSignature(s.factoryType),
      QualifiedSignature(s.interfaceMethodType), s.impl.memberName, QualifiedSignature(s.dynamicMethodType) ];
    ConcatAppend(fixed + ClassNames(s.altInterfaces), Signatures(s.altMethods));
    ConcatAppend(fixed, ClassNames(s.altInterfaces));
    ConcatFive(fixed);
  }

  lemma ConcatFive(xs: seq<string>)
    requires |xs| == 5
    ensures Concat(xs) == xs[0] + xs[1] + xs[2] + xs[3] + xs[4]
  {
    assert xs[1..][1..] == xs[2..] && xs[2..][1..] == xs[3..] && xs[3..][1..] == xs[4..];
    assert Concat(xs[4..]) == xs[4] by { assert xs[4..][1..] == []; }
    assert Concat(xs[3..]) == xs[3] + xs[4];
    assert Concat(xs[2..]) == xs[2] + (xs[3] + xs[4]);
    assert Concat(xs[1..]) == xs[1] + (xs[2] + (xs[3] + xs[4]));
  }

  /**
   * The shape of a stable name: the simple name, then 1 to 16 lowercase hex
   * digits without a leading zero from which both checksums can be read back.
   * It has no '.' and, being a function of the inputs, equal inputs give the
   * equal name.
   */
  lemma StableNameShape(s: Site)
    ensures var simple := CreateNameFromTargetClass(s.targetClass);
      var name := StableName(s);
      var input := Concat(HashPieces(s));
      && |simple| < |name| <= |simple| + 16
      && name[..|simple|] == simple
      && '.' !in name
      && (forall i :: |simple| <= i < |name| ==> IsDigit(name[i], 16))
      && ParseDigits(name[|simple|..], 16) % Two32 == HashStringToLong(Mask(input, Mask1))
      && ParseDigits(name[|simple|..], 16) / Two32 == HashStringToLong(Mask(input, Mask2))
  {
    var simple := CreateNameFromTargetClass(s.targetClass);
    var input := Concat(HashPieces(s));
    MaskIsLatin1(input, Mask1);
    MaskIsLatin1(input, Mask2);
    var hex := HashToHexString(Mask(input, Mask1), Mask(input, Mask2));
    var name := StableName(s);
    assert name == simple + hex;
    assert name[..|simple|] == simple;
    assert name[|simple|..] == hex;
    forall i | 0 <= i < |name| ensures name[i] != '.' {
      if i < |simple| { assert simple[i] in simple; } else { assert IsDigit(hex[i - |simple|], 16); }
    }
  }
}
