/**
 * The signature enumerator of the foreign-function tests: `generateTest`
 * builds every list of a given length over an enum's constants with a
 * shared push/pop stack, `perms` memoises it per length, `sigCode` and
 * `ParamType.type` name the types, and `functions()` numbers, names and
 * samples every downcall signature.
 */
module CallGenerator {
  import opened Wrappers
  import opened Text

  // ---------------------------------------------------------------------
  // The enums
  // ---------------------------------------------------------------------

  datatype Ret = Void | NonVoid

  datatype StructFieldType = Int | Float | Double | Pointer
  {
    /** `name().charAt(0)`: the only part of the constant's name the source reads. */
    function Initial(): char
    {
      match this
      case Int => 'I'
      case Float => 'F'
      case Double => 'D'
      case Pointer => 'P'
    }
  }

  datatype ParamType = Int | Float | Double | Pointer | Struct
  {
    /** `name().charAt(0)`. */
    function Initial(): char
    {
      match this
      case Int => 'I'
      case Float => 'F'
      case Double => 'D'
      case Pointer => 'P'
      case Struct => 'S'
    }

    function TypeStr(): string
    {
      match this
      case Int => "int"
      case Float => "float"
      case Double => "double"
      case Pointer => "void*"
      case Struct => "struct S"
    }

    /** `type(fields)`: the C type of a parameter; a struct is named after its fields. */
    function Type(fields: seq<StructFieldType>): (r: string)
      ensures this == Struct ==> r == "struct S_" + SigCode(fields, FieldName)
      ensures this != Struct ==> r == TypeStr() && '_' !in r
    {
      if this == Struct then TypeStr() + "_" + SigCode(fields, FieldName) else TypeStr()
    }
  }

  /** A constant's name as far as `sigCode` and the return code read it. */
  function FieldName(t: StructFieldType): string { [t.Initial()] }

  function ParamName(t: ParamType): string { [t.Initial()] }

  /** `values()`, in declaration order. */
  const StructFieldTypes: seq<StructFieldType> :=
    [StructFieldType.Int, StructFieldType.Float, StructFieldType.Double, StructFieldType.Pointer]

  const ParamTypes: seq<ParamType> :=
    [ParamType.Int, ParamType.Float, ParamType.Double, ParamType.Pointer, ParamType.Struct]

  const MaxFields := 3
  const MaxParams := 3
  const ChunkSize := 600

  // ---------------------------------------------------------------------
  // `sigCode`
  // ---------------------------------------------------------------------

  /** `sigCode`: the first letter of each constant's name, in order. */
  function SigCode<Z(!new)>(elems: seq<Z>, name: Z -> string): (r: string)
    requires forall z :: name(z) != []
    ensures |r| == |elems|
    ensures forall k :: 0 <= k < |elems| ==> r[k] == name(elems[k])[0]
  {
    if elems == [] then [] else [name(elems[0])[0]] + SigCode(elems[1..], name)
  }

  /** Different constants have different initials, in both enums. */
  lemma InitialsDistinct()
    ensures forall a: ParamType, b: ParamType :: ParamName(a)[0] == ParamName(b)[0] ==> a == b
    ensures forall a: StructFieldType, b: StructFieldType :: FieldName(a)[0] == FieldName(b)[0] ==> a == b
    ensures forall a: ParamType :: ParamName(a)[0] in "IFDPS"
    ensures forall a: StructFieldType :: FieldName(a)[0] in "IFDP"
  {
  }

  /** With distinct initials, the code determines the list. */
  lemma SigCodeInjective<Z(!new)>(xs: seq<Z>, ys: seq<Z>, name: Z -> string)
    requires forall z :: name(z) != []
    requires forall a, b :: name(a)[0] == name(b)[0] ==> a == b
    requires SigCode(xs, name) == SigCode(ys, name)
    ensures xs == ys
  {
    assert |xs| == |ys|;
    forall k | 0 <= k < |xs|
      ensures xs[k] == ys[k]
    {
      assert name(xs[k])[0] == SigCode(xs, name)[k] == name(ys[k])[0];
    }
  }

  /** Distinct parameter types get distinct C types, and so do structs with distinct fields. */
  lemma TypeInjective(a: ParamType, f: seq<StructFieldType>, b: ParamType, g: seq<StructFieldType>)
    requires a.Type(f) == b.Type(g)
    ensures a == b
    ensures a == ParamType.Struct ==> f == g
  {
    InitialsDistinct();
    if a == ParamType.Struct && b == ParamType.Struct {
      var s, t := a.Type(f), b.Type(g);
      assert s[9..] == SigCode(f, FieldName) && t[9..] == SigCode(g, FieldName);
      SigCodeInjective(f, g, FieldName);
    }
  }

  // ---------------------------------------------------------------------
  // `generateTest`: the cartesian power, in lexicographic order
  // ---------------------------------------------------------------------

  /**
   * What `generateTest(i, combo, elems, results)` appends: `combo` followed
   * by every list of length `i` over `elems`, the first position varying
   * slowest.
   */
  function Tests<Z>(combo: seq<Z>, elems: seq<Z>, i: nat): seq<seq<Z>>
    decreases i, |elems| + 1
  {
    if i == 0 then [combo] else Branches(combo, elems, i, |elems|)
  }

  /** The lists that start with `combo` and one of the first `j` elements. */
  function Branches<Z>(combo: seq<Z>, elems: seq<Z>, i: nat, j: nat): seq<seq<Z>>
    requires 0 < i && j <= |elems|
    decreases i, j
  {
    if j == 0 then [] else Branches(combo, elems, i, j - 1) + Tests(combo + [elems[j - 1]], elems, i - 1)
  }

  /** The positions `ranks` name, picked from `elems`. */
  function Pick<Z>(elems: seq<Z>, ranks: seq<nat>): (r: seq<Z>)
    requires forall p :: 0 <= p < |ranks| ==> ranks[p] < |elems|
    ensures |r| == |ranks| && forall p :: 0 <= p < |ranks| ==> r[p] == elems[ranks[p]]
  {
    if ranks == [] then [] else [elems[ranks[0]]] + Pick(elems, ranks[1..])
  }

  /** The `i` lowest base-`n` digits of `k`, most significant first. */
  function Ranks(k: nat, n: nat, i: nat): (r: seq<nat>)
    requires n > 0
    ensures |r| == i && forall p :: 0 <= p < i ==> r[p] < n
  {
    if i == 0 then [] else [(k / Pow(n, i - 1)) % n] + Ranks(k % Pow(n, i - 1), n, i - 1)
  }

  /** `a` comes before `b` in lexicographic order. */
  predicate LexLess(a: seq<nat>, b: seq<nat>)
  {
    exists p :: 0 <= p < |a| && p < |b| && a[..p] == b[..p] && a[p] < b[p]
  }

  lemma MulLe(a: nat, b: nat, m: nat)
    requires a <= b
    ensures a * m <= b * m
  {
  }

  /** Quotient and remainder are unique. */
  lemma DivMod(k: nat, m: nat, q: nat, r: nat)
    requires 0 < m && k == q * m + r && r < m
    ensures k / m == q && k % m == r
  {
    var q2, r2 := k / m, k % m;
    assert k == q2 * m + r2;
    if q2 < q {
      MulLe(q2 + 1, q, m);
    } else if q < q2 {
      MulLe(q + 1, q2, m);
    }
  }

  /** A number below n * m has quotient below n. */
  lemma DivBound(k: nat, m: nat, n: nat)
    requires 0 < m && k < n * m
    ensures k / m < n
  {
    if k / m >= n {
      MulLe(n, k / m, m);
    }
  }

  lemma PowStep(n: nat, i: nat)
    requires i > 0
    ensures Pow(n, i) == n * Pow(n, i - 1)
  {
  }

  /** `generateTest` produces `|elems|^i` lists; for `i == 0` the one list `combo`. */
  lemma {:induction false} TestsCount<Z>(combo: seq<Z>, elems: seq<Z>, i: nat)
    ensures |Tests(combo, elems, i)| == Pow(|elems|, i)
    decreases i, 1
  {
    if i > 0 {
      BranchesCount(combo, elems, i, |elems|);
      PowStep(|elems|, i);
    }
  }

  lemma {:induction false} BranchesCount<Z>(combo: seq<Z>, elems: seq<Z>, i: nat, j: nat)
    requires 0 < i && j <= |elems|
    ensures |Branches(combo, elems, i, j)| == j * Pow(|elems|, i - 1)
    decreases i, 0, j
  {
    if j > 0 {
      BranchesCount(combo, elems, i, j - 1);
      TestsCount(combo + [elems[j - 1]], elems, i - 1);
      var m := Pow(|elems|, i - 1);
      assert j * m == (j - 1) * m + m;
    }
  }

  /** Position q * m + r of the first j branches is position r of branch q, m being the branch size. */
  lemma {:induction false} BranchesAt<Z>(combo: seq<Z>, elems: seq<Z>, i: nat, j: nat, q: nat, r: nat)
    requires 0 < i && q < j <= |elems| && r < Pow(|elems|, i - 1)
    ensures |Branches(combo, elems, i, j)| == j * Pow(|elems|, i - 1)
    ensures q * Pow(|elems|, i - 1) + r < j * Pow(|elems|, i - 1)
    ensures |Tests(combo + [elems[q]], elems, i - 1)| == Pow(|elems|, i - 1)
    ensures Branches(combo, elems, i, j)[q * Pow(|elems|, i - 1) + r] == Tests(combo + [elems[q]], elems, i - 1)[r]
    decreases j
  {
    var m := Pow(|elems|, i - 1);
    if q == j - 1 {
      BranchesLast(combo, elems, i, j, r);
      assert j * m == (j - 1) * m + m;
    } else {
      BranchesAt(combo, elems, i, j - 1, q, r);
      BranchesCount(combo, elems, i, j);
    }
  }

  /** The last of the first j branches starts at (j - 1) * m. */
  lemma BranchesLast<Z>(combo: seq<Z>, elems: seq<Z>, i: nat, j: nat, r: nat)
    requires 0 < i && 0 < j <= |elems| && r < Pow(|elems|, i - 1)
    ensures |Branches(combo, elems, i, j)| == (j - 1) * Pow(|elems|, i - 1) + Pow(|elems|, i - 1)
    ensures |Tests(combo + [elems[j - 1]], elems, i - 1)| == Pow(|elems|, i - 1)
    ensures Branches(combo, elems, i, j)[(j - 1) * Pow(|elems|, i - 1) + r]
      == Tests(combo + [elems[j - 1]], elems, i - 1)[r]
  {
    var m := Pow(|elems|, i - 1);
    BranchesCount(combo, elems, i, j - 1);
    TestsCount(combo + [elems[j - 1]], elems, i - 1);
    assert j * m == (j - 1) * m + m;
    BranchesCount(combo, elems, i, j);
  }

  /**
   * List k of `generateTest` is `combo` followed by the elements whose
   * positions are the base-|elems| digits of k: the lists come out in
   * lexicographic order of element position, all of them exactly once.
   */
  lemma {:induction false} TestsAt<Z>(combo: seq<Z>, elems: seq<Z>, i: nat, k: nat)
    requires |elems| > 0 && k < Pow(|elems|, i)
    ensures |Tests(combo, elems, i)| == Pow(|elems|, i)
    ensures Tests(combo, elems, i)[k] == combo + Pick(elems, Ranks(k, |elems|, i))
    decreases i, 1
  {
    if i > 0 {
      TestsAtSucc(combo, elems, i, k);
    } else {
      assert Pow(|elems|, 0) == 1 && Tests(combo, elems, 0) == [combo];
      assert Ranks(k, |elems|, 0) == [];
      assert combo + Pick(elems, []) == combo;
    }
  }

  lemma {:induction false} TestsAtSucc<Z>(combo: seq<Z>, elems: seq<Z>, i: nat, k: nat)
    requires |elems| > 0 && 0 < i && k < Pow(|elems|, i)
    ensures |Tests(combo, elems, i)| == Pow(|elems|, i)
    ensures Tests(combo, elems, i)[k] == combo + Pick(elems, Ranks(k, |elems|, i))
    decreases i, 0
  {
    var q, r := TestsAtParts(combo, elems, i, k);
    TestsAt(combo + [elems[q]], elems, i - 1, r);
    PickCons(combo, elems, q, Ranks(r, |elems|, i - 1));
  }

  lemma PickCons<Z>(combo: seq<Z>, elems: seq<Z>, q: nat, tail: seq<nat>)
    requires q < |elems| && forall p :: 0 <= p < |tail| ==> tail[p] < |elems|
    ensures combo + [elems[q]] + Pick(elems, tail) == combo + Pick(elems, [q] + tail)
  {
    assert ([q] + tail)[1..] == tail;
  }

  /**
   * List k lies in the branch of element q at offset r, where q is k's
   * leading base-|elems| digit and r what the other digits denote.
   */
  lemma TestsAtParts<Z>(combo: seq<Z>, elems: seq<Z>, i: nat, k: nat) returns (q: nat, r: nat)
    requires |elems| > 0 && 0 < i && k < Pow(|elems|, i)
    ensures q < |elems| && r < Pow(|elems|, i - 1)
    ensures |Tests(combo, elems, i)| == Pow(|elems|, i)
    ensures |Tests(combo + [elems[q]], elems, i - 1)| == Pow(|elems|, i - 1)
    ensures Tests(combo, elems, i)[k] == Tests(combo + [elems[q]], elems, i - 1)[r]
    ensures Ranks(k, |elems|, i) == [q] + Ranks(r, |elems|, i - 1)
  {
    var m := Pow(|elems|, i - 1);
    RanksStep(k, |elems|, i);
    q, r := k / m, k % m;
    assert k == q * m + r;
    TestsCount(combo, elems, i);
    BranchesAt(combo, elems, i, |elems|, q, r);
  }

  /** The leading digit is the quotient by n^(i-1), the rest are the remainder's digits. */
  lemma RanksStep(k: nat, n: nat, i: nat)
    requires n > 0 && 0 < i && k < Pow(n, i)
    ensures Pow(n, i - 1) > 0 && k / Pow(n, i - 1) < n
    ensures Ranks(k, n, i) == [k / Pow(n, i - 1)] + Ranks(k % Pow(n, i - 1), n, i - 1)
  {
    var m := Pow(n, i - 1);
    PowStep(n, i);
    DivBound(k, m, n);
    ModSmall(k / m, n);
  }

  lemma ModSmall(x: nat, n: nat)
    requires x < n
    ensures x % n == x
  {
    DivMod(x, n, 0, x);
  }

  /** Equal quotients: the order is the order of the remainders. */
  lemma SameQuotient(k: nat, l: nat, m: nat)
    requires 0 < m && k < l && k / m == l / m
    ensures k % m < l % m
  {
    var q := k / m;
    assert k == q * m + k % m;
    assert l == q * m + l % m;
  }

  /** Smaller numbers have lexicographically smaller digit lists. */
  lemma {:induction false} RanksOrdered(k: nat, l: nat, n: nat, i: nat)
    requires n > 0 && k < l < Pow(n, i)
    ensures LexLess(Ranks(k, n, i), Ranks(l, n, i))
    decreases i
  {
    if i > 0 {
      var m := Pow(n, i - 1);
      RanksStep(k, n, i);
      RanksStep(l, n, i);
      QuotientMonotone(k, l, m);
      if k / m < l / m {
        assert Ranks(k, n, i)[..0] == Ranks(l, n, i)[..0];
      } else {
        RanksTail(k, l, n, i, m);
      }
    }
  }

  lemma QuotientMonotone(k: nat, l: nat, m: nat)
    requires 0 < m && k <= l
    ensures k / m <= l / m
  {
    if k / m > l / m {
      MulLe(l / m + 1, k / m, m);
    }
  }

  /** Equal leading digits: the order is decided by the remainders. */
  lemma {:induction false} RanksTail(k: nat, l: nat, n: nat, i: nat, m: nat)
    requires n > 0 && i > 0 && m == Pow(n, i - 1) && k < l < Pow(n, i)
    requires k / m == l / m
    ensures LexLess(Ranks(k, n, i), Ranks(l, n, i))
    decreases i, 0
  {
    var a, b := Ranks(k, n, i), Ranks(l, n, i);
    var ta, tb := Ranks(k % m, n, i - 1), Ranks(l % m, n, i - 1);
    SameQuotient(k, l, m);
    RanksOrdered(k % m, l % m, n, i - 1);
    var p :| 0 <= p < i - 1 && ta[..p] == tb[..p] && ta[p] < tb[p];
    RanksStep(k, n, i);
    RanksStep(l, n, i);
    assert a[..p + 1] == [k / m] + ta[..p];
    assert b[..p + 1] == [l / m] + tb[..p];
    assert a[p + 1] < b[p + 1];
  }

  /** Every list has length |combo| + i, starts with `combo`, and continues with elements of `elems`. */
  lemma TestsShape<Z>(combo: seq<Z>, elems: seq<Z>, i: nat, k: nat)
    requires k < |Tests(combo, elems, i)|
    ensures |Tests(combo, elems, i)[k]| == |combo| + i
    ensures Tests(combo, elems, i)[k][..|combo|] == combo
    ensures forall p :: |combo| <= p < |combo| + i ==> Tests(combo, elems, i)[k][p] in elems
  {
    TestsCount(combo, elems, i);
    if |elems| == 0 {
      assert i == 0;
    } else {
      TestsAt(combo, elems, i, k);
    }
  }

  /** Over distinct elements, no list is produced twice. */
  lemma TestsDistinct<Z>(combo: seq<Z>, elems: seq<Z>, i: nat, k: nat, l: nat)
    requires forall a, b :: 0 <= a < b < |elems| ==> elems[a] != elems[b]
    requires k < l < |Tests(combo, elems, i)|
    ensures Tests(combo, elems, i)[k] != Tests(combo, elems, i)[l]
  {
    TestsCount(combo, elems, i);
    if |elems| > 0 {
      var n := |elems|;
      TestsAt(combo, elems, i, k);
      TestsAt(combo, elems, i, l);
      RanksOrdered(k, l, n, i);
      var a, b := Ranks(k, n, i), Ranks(l, n, i);
      var p := FirstDifference(a, b);
      assert elems[a[p]] != elems[b[p]];
      PickDiffers(combo, elems, a, b, p);
    }
  }

  /** A position where the lexicographically smaller list has the smaller entry. */
  lemma FirstDifference(a: seq<nat>, b: seq<nat>) returns (p: nat)
    requires LexLess(a, b)
    ensures p < |a| && p < |b| && a[p] < b[p]
  {
    p :| 0 <= p < |a| && p < |b| && a[..p] == b[..p] && a[p] < b[p];
  }

  lemma PickDiffers<Z>(combo: seq<Z>, elems: seq<Z>, a: seq<nat>, b: seq<nat>, p: nat)
    requires forall q :: 0 <= q < |a| ==> a[q] < |elems|
    requires forall q :: 0 <= q < |b| ==> b[q] < |elems|
    requires p < |a| && p < |b| && elems[a[p]] != elems[b[p]]
    ensures combo + Pick(elems, a) != combo + Pick(elems, b)
  {
    assert (combo + Pick(elems, a))[|combo| + p] == elems[a[p]];
    assert (combo + Pick(elems, b))[|combo| + p] == elems[b[p]];
  }

  /** Every list of length i over `elems`, after `combo`, is produced. */
  lemma {:induction false} TestsComplete<Z>(combo: seq<Z>, elems: seq<Z>, i: nat, xs: seq<Z>)
    requires |xs| == i && forall p :: 0 <= p < i ==> xs[p] in elems
    ensures combo + xs in Tests(combo, elems, i)
    decreases i
  {
    if i == 0 {
      assert combo + xs == combo;
    } else {
      assert xs[0] in elems;
      var t :| 0 <= t < |elems| && elems[t] == xs[0];
      TestsComplete(combo + [xs[0]], elems, i - 1, xs[1..]);
      assert combo + [xs[0]] + xs[1..] == combo + xs;
      BranchesContain(combo, elems, i, |elems|, t);
    }
  }

  lemma {:induction false} BranchesContain<Z>(combo: seq<Z>, elems: seq<Z>, i: nat, j: nat, t: nat)
    requires 0 < i && t < j <= |elems|
    ensures forall x :: x in Tests(combo + [elems[t]], elems, i - 1) ==> x in Branches(combo, elems, i, j)
    decreases j
  {
    if t < j - 1 {
      BranchesContain(combo, elems, i, j - 1, t);
    }
  }

  /** A list on the recursion's shared stack (`java.util.Stack`). */
  class Stack<Z> {
    var elems: seq<Z>

    constructor ()
      ensures elems == []
    {
      elems := [];
    }

    method Push(z: Z)
      modifies this
      ensures elems == old(elems) + [z]
    {
      elems := elems + [z];
    }

    method Pop() returns (z: Z)
      requires elems != []
      modifies this
      ensures elems == old(elems)[..|old(elems)| - 1] && z == old(elems)[|old(elems)| - 1]
    {
      z := elems[|elems| - 1];
      elems := elems[..|elems| - 1];
    }
  }

  /** `java.util.ArrayList`, appended to in place. */
  class ArrayList<T> {
    var items: seq<T>

    constructor ()
      ensures items == []
    {
      items := [];
    }

    method Add(x: T)
      modifies this
      ensures items == old(items) + [x]
    {
      items := items + [x];
    }
  }

  /**
   * `generateTest(i, combo, elems, results)`: every push is undone by its
   * pop, so `combo` is as it was when the call returns, and `results` has
   * grown by `Tests(combo, elems, i)`.
   */
  method GenerateTestInto<Z>(i: nat, combo: Stack<Z>, elems: seq<Z>, results: ArrayList<seq<Z>>)
    modifies combo, results
    ensures combo.elems == old(combo.elems)
    ensures results.items == old(results.items) + Tests(old(combo.elems), elems, i)
    decreases i
  {
    if i == 0 {
      results.Add(combo.elems);
    } else {
      for j := 0 to |elems|
        invariant combo.elems == old(combo.elems)
        invariant results.items == old(results.items) + Branches(old(combo.elems), elems, i, j)
      {
        combo.Push(elems[j]);
        GenerateTestInto(i - 1, combo, elems, results);
        var _ := combo.Pop();
      }
    }
  }

  /** `generateTest(i, elems)`: the lists of length i over `elems`, from an empty stack. */
  method GenerateTest<Z>(i: nat, elems: seq<Z>) returns (res: seq<seq<Z>>)
    ensures res == Tests([], elems, i)
  {
    var results := new ArrayList<seq<Z>>();
    var combo := new Stack<Z>();
    GenerateTestInto(i, combo, elems, results);
    res := results.items;
  }

  // ---------------------------------------------------------------------
  // `perms`: one memo slot per length
  // ---------------------------------------------------------------------

  /** The static `perms` array of an enum and the `perms(i)` that fills it. */
  class PermsMemo<Z> {
    const values: seq<Z>
    const perms: array<Option<seq<seq<Z>>>>

    /** A filled slot holds what `generateTest` returns for its length. */
    ghost predicate Valid()
      reads perms
    {
      perms.Length == 10 && forall j :: 0 <= j < 10 && perms[j].Some? ==> perms[j].value == Tests([], values, j)
    }

    constructor (values: seq<Z>)
      ensures this.values == values && Valid() && fresh(perms)
      ensures forall j :: 0 <= j < perms.Length ==> perms[j] == None
    {
      this.values := values;
      perms := new Option<seq<seq<Z>>>[10](_ => None);
    }

    /** `perms(i)`: generated on first use, the stored list afterwards. */
    method Perms(i: nat) returns (r: seq<seq<Z>>)
      requires Valid() && i < perms.Length
      modifies perms
      ensures Valid()
      ensures r == Tests([], values, i) && perms[i] == Some(r)
      ensures old(perms[i]).Some? ==> r == old(perms[i]).value && perms[..] == old(perms[..])
      ensures forall j :: 0 <= j < perms.Length && j != i ==> perms[j] == old(perms[j])
    {
      if perms[i] == None {
        var generated := GenerateTest(i, values);
        perms[i] := Some(generated);
      }
      r := perms[i].value;
    }
  }

  // ---------------------------------------------------------------------
  // `functions()`: every downcall signature, numbered, named and sampled
  // ---------------------------------------------------------------------

  const Rets: seq<Ret> := [Ret.Void, Ret.NonVoid]

  /** A return kind, the parameter types and, when a parameter is a struct, its fields. */
  datatype Signature = Signature(ret: Ret, ptypes: seq<ParamType>, fields: seq<StructFieldType>)

  /** One row of the data provider: `{count, fName, r, ptypes, fields}`. */
  datatype Downcall = Downcall(count: nat, name: string, ret: Ret, ptypes: seq<ParamType>, fields: seq<StructFieldType>)

  /** The signatures for one parameter list and each field list in `fss`. */
  function WithFields(r: Ret, ptypes: seq<ParamType>, fss: seq<seq<StructFieldType>>): seq<Signature>
  {
    if fss == [] then [] else WithFields(r, ptypes, fss[..|fss| - 1]) + [Signature(r, ptypes, fss[|fss| - 1])]
  }

  /** A parameter list holding a struct: one signature per field list of length 1 to j. */
  function StructSignatures(r: Ret, ptypes: seq<ParamType>, j: nat): seq<Signature>
  {
    if j == 0 then [] else StructSignatures(r, ptypes, j - 1) + WithFields(r, ptypes, Tests([], StructFieldTypes, j))
  }

  function ParamSignatures(r: Ret, ptypes: seq<ParamType>): seq<Signature>
  {
    if ParamType.Struct in ptypes then StructSignatures(r, ptypes, MaxFields) else [Signature(r, ptypes, [])]
  }

  function ListSignatures(r: Ret, pss: seq<seq<ParamType>>): seq<Signature>
  {
    if pss == [] then [] else ListSignatures(r, pss[..|pss| - 1]) + ParamSignatures(r, pss[|pss| - 1])
  }

  lemma ListSignaturesPrefix(r: Ret, pss: seq<seq<ParamType>>, k: nat)
    requires k < |pss|
    ensures ListSignatures(r, pss[..k + 1]) == ListSignatures(r, pss[..k]) + ParamSignatures(r, pss[k])
  {
    assert pss[..k + 1][..k] == pss[..k];
  }

  /** The signatures with fewer than i parameters; a non-void function has at least one. */
  function AritySignatures(r: Ret, i: nat): seq<Signature>
  {
    if i == 0 then []
    else
      var added := if r != Ret.Void && i - 1 == 0 then [] else ListSignatures(r, Tests([], ParamTypes, i - 1));
      AritySignatures(r, i - 1) + added
  }

  function RetSignatures(rs: seq<Ret>): seq<Signature>
  {
    if rs == [] then [] else RetSignatures(rs[..|rs| - 1]) + AritySignatures(rs[|rs| - 1], MaxParams + 1)
  }

  /** Everything `functions()` enumerates, in its order. */
  function Signatures(): seq<Signature>
  {
    RetSignatures(Rets)
  }

  /** The return code can be formed: a non-void function has a first parameter. */
  predicate HasRetCode(s: Signature)
  {
    s.ret == Ret.NonVoid ==> s.ptypes != []
  }

  predicate AllHaveRetCode(sigs: seq<Signature>)
  {
    forall s :: s in sigs ==> HasRetCode(s)
  }

  /** "V" for void, otherwise the initial of the first parameter's type, the type returned. */
  function RetCode(s: Signature): string
    requires HasRetCode(s)
  {
    if s.ret == Ret.Void then "V" else [ParamName(s.ptypes[0])[0]]
  }

  /** `String.format("f%d_%s_%s_%s", count / CHUNK_SIZE, retCode, sigCode, structCode)`. */
  function FunctionName(count: nat, s: Signature): string
    requires HasRetCode(s)
  {
    "f" + ToDigits(count / ChunkSize, 10) + "_" + RetCode(s) + "_"
      + SigCode(s.ptypes, ParamName) + "_" + SigCode(s.fields, FieldName)
  }

  /** Whether the function numbered `count` is kept; the source divides by the factor. */
  predicate Sampled(count: nat, sampleFactor: int)
    requires sampleFactor != 0
  {
    sampleFactor == -1 || count % sampleFactor == 0
  }

  function DowncallOf(count: nat, s: Signature): Downcall
    requires HasRetCode(s)
  {
    Downcall(count, FunctionName(count, s), s.ret, s.ptypes, s.fields)
  }

  /** The rows for `sigs`, numbered from 0 in order, keeping the sampled ones. */
  function Numbered(sigs: seq<Signature>, sampleFactor: int): seq<Downcall>
    requires sampleFactor != 0 && AllHaveRetCode(sigs)
  {
    if sigs == [] then []
    else
      var last := |sigs| - 1;
      Numbered(sigs[..last], sampleFactor)
        + (if Sampled(last, sampleFactor) then [DowncallOf(last, sigs[last])] else [])
  }

  /** What `functions()` returns. */
  function Downcalls(sampleFactor: int): seq<Downcall>
    requires sampleFactor != 0
  {
    SignaturesWellFormed();
    Numbered(Signatures(), sampleFactor)
  }

  /** The shape `functions()` guarantees of each signature. */
  predicate WellFormed(s: Signature)
  {
    && HasRetCode(s)
    && 0 <= |s.ptypes| <= MaxParams
    && (ParamType.Struct in s.ptypes <==> s.fields != [])
    && |s.fields| <= MaxFields
  }

  predicate AllWellFormed(sigs: seq<Signature>)
  {
    forall s :: s in sigs ==> WellFormed(s)
  }

  lemma TestsLengths<Z>(elems: seq<Z>, i: nat)
    ensures forall k :: 0 <= k < |Tests([], elems, i)| ==> |Tests([], elems, i)[k]| == i
  {
    forall k | 0 <= k < |Tests([], elems, i)|
      ensures |Tests([], elems, i)[k]| == i
    {
      TestsShape([], elems, i, k);
    }
  }

  lemma {:induction false} WithFieldsWellFormed(r: Ret, ptypes: seq<ParamType>, fss: seq<seq<StructFieldType>>)
    requires HasRetCode(Signature(r, ptypes, [])) && ParamType.Struct in ptypes && |ptypes| <= MaxParams
    requires forall k :: 0 <= k < |fss| ==> 1 <= |fss[k]| <= MaxFields
    ensures AllWellFormed(WithFields(r, ptypes, fss))
    ensures |WithFields(r, ptypes, fss)| == |fss|
  {
    if fss != [] {
      WithFieldsWellFormed(r, ptypes, fss[..|fss| - 1]);
    }
  }

  lemma {:induction false} StructSignaturesWellFormed(r: Ret, ptypes: seq<ParamType>, j: nat)
    requires HasRetCode(Signature(r, ptypes, [])) && ParamType.Struct in ptypes && |ptypes| <= MaxParams
    requires j <= MaxFields
    ensures AllWellFormed(StructSignatures(r, ptypes, j))
  {
    if j > 0 {
      StructSignaturesWellFormed(r, ptypes, j - 1);
      TestsLengths(StructFieldTypes, j);
      WithFieldsWellFormed(r, ptypes, Tests([], StructFieldTypes, j));
    }
  }

  lemma {:induction false} ListSignaturesWellFormed(r: Ret, pss: seq<seq<ParamType>>)
    requires forall k :: 0 <= k < |pss| ==> HasRetCode(Signature(r, pss[k], [])) && |pss[k]| <= MaxParams
    ensures AllWellFormed(ListSignatures(r, pss))
  {
    if pss != [] {
      ListSignaturesWellFormed(r, pss[..|pss| - 1]);
      var ptypes := pss[|pss| - 1];
      if ParamType.Struct in ptypes {
        StructSignaturesWellFormed(r, ptypes, MaxFields);
      }
    }
  }

  lemma {:induction false} AritySignaturesWellFormed(r: Ret, i: nat)
    requires i <= MaxParams + 1
    ensures AllWellFormed(AritySignatures(r, i))
  {
    if i > 0 {
      AritySignaturesWellFormed(r, i - 1);
      var before := AritySignatures(r, i - 1);
      if r == Ret.Void || i - 1 != 0 {
        var added := ListSignatures(r, Tests([], ParamTypes, i - 1));
        ParamListsWellFormed(r, i - 1);
        assert AritySignatures(r, i) == before + added;
        AllWellFormedAppend(before, added);
      }
    }
  }

  lemma AllWellFormedAppend(a: seq<Signature>, b: seq<Signature>)
    requires AllWellFormed(a) && AllWellFormed(b)
    ensures AllWellFormed(a + b)
  {
  }

  lemma ParamListsWellFormed(r: Ret, i: nat)
    requires i <= MaxParams && (r == Ret.NonVoid ==> i > 0)
    ensures AllWellFormed(ListSignatures(r, Tests([], ParamTypes, i)))
  {
    TestsLengths(ParamTypes, i);
    ListSignaturesWellFormed(r, Tests([], ParamTypes, i));
  }

  /**
   * Every enumerated signature is well formed: at most three parameters,
   * a non-void function has at least one, and fields (at most three) are
   * present exactly when a parameter is a struct.
   */
  lemma SignaturesWellFormed()
    ensures AllWellFormed(Signatures())
  {
    AritySignaturesWellFormed(Ret.Void, MaxParams + 1);
    AritySignaturesWellFormed(Ret.NonVoid, MaxParams + 1);
    assert Signatures() == RetSignatures([Ret.Void]) + AritySignatures(Ret.NonVoid, MaxParams + 1) by {
      assert Rets[..1] == [Ret.Void];
    }
    assert RetSignatures([Ret.Void]) == AritySignatures(Ret.Void, MaxParams + 1) by {
      assert [Ret.Void][..0] == [];
    }
  }

  // ---------------------------------------------------------------------
  // What the numbering and the names promise
  // ---------------------------------------------------------------------

  lemma NumberedSnoc(sigs: seq<Signature>, s: Signature, sampleFactor: int)
    requires sampleFactor != 0 && AllHaveRetCode(sigs) && HasRetCode(s)
    ensures AllHaveRetCode(sigs + [s])
    ensures Numbered(sigs + [s], sampleFactor) == Numbered(sigs, sampleFactor)
      + (if Sampled(|sigs|, sampleFactor) then [DowncallOf(|sigs|, s)] else [])
  {
    assert (sigs + [s])[..|sigs|] == sigs;
  }

  /** Each row is a sampled signature, numbered by its position and named from that number. */
  lemma {:induction false} NumberedRowsSound(sigs: seq<Signature>, sampleFactor: int)
    requires sampleFactor != 0 && AllHaveRetCode(sigs)
    ensures forall d :: d in Numbered(sigs, sampleFactor) ==>
      d.count < |sigs| && Sampled(d.count, sampleFactor) && d == DowncallOf(d.count, sigs[d.count])
  {
    if sigs != [] {
      var init := sigs[..|sigs| - 1];
      NumberedRowsSound(init, sampleFactor);
    }
  }

  /** Every row's count is below |sigs|, and the counts strictly increase. */
  lemma {:induction false} NumberedOrdered(sigs: seq<Signature>, sampleFactor: int)
    requires sampleFactor != 0 && AllHaveRetCode(sigs)
    ensures forall d :: d in Numbered(sigs, sampleFactor) ==> d.count < |sigs|
    ensures forall t, u :: 0 <= t < u < |Numbered(sigs, sampleFactor)| ==>
      Numbered(sigs, sampleFactor)[t].count < Numbered(sigs, sampleFactor)[u].count
  {
    if sigs != [] {
      var init := sigs[..|sigs| - 1];
      NumberedOrdered(init, sampleFactor);
    }
  }

  /** Every sampled position has its row. */
  lemma {:induction false} NumberedComplete(sigs: seq<Signature>, sampleFactor: int, c: nat)
    requires sampleFactor != 0 && AllHaveRetCode(sigs)
    requires c < |sigs| && Sampled(c, sampleFactor)
    ensures exists d :: d in Numbered(sigs, sampleFactor) && d.count == c
  {
    var last := |sigs| - 1;
    var rows := Numbered(sigs, sampleFactor);
    var prev := Numbered(sigs[..last], sampleFactor);
    if c < last {
      NumberedComplete(sigs[..last], sampleFactor, c);
      var d :| d in prev && d.count == c;
      assert d in rows;
    } else {
      assert DowncallOf(c, sigs[c]) in rows;
    }
  }

  /** With the default factor -1 nothing is sampled out: row k is signature k. */
  lemma {:induction false} NumberedAll(sigs: seq<Signature>)
    requires AllHaveRetCode(sigs)
    ensures |Numbered(sigs, -1)| == |sigs|
    ensures forall k :: 0 <= k < |sigs| ==> Numbered(sigs, -1)[k] == DowncallOf(k, sigs[k])
  {
    if sigs != [] {
      NumberedAll(sigs[..|sigs| - 1]);
    }
  }

  /** The four '_'-separated parts of a function name. */
  function NameParts(count: nat, s: Signature): seq<string>
    requires HasRetCode(s)
  {
    ["f" + ToDigits(count / ChunkSize, 10), RetCode(s), SigCode(s.ptypes, ParamName), SigCode(s.fields, FieldName)]
  }

  lemma DigitsFree(n: nat)
    ensures '_' !in ToDigits(n, 10)
  {
  }

  lemma SigCodeFree<Z(!new)>(elems: seq<Z>, name: Z -> string)
    requires forall z :: name(z) != [] && name(z)[0] != '_'
    ensures '_' !in SigCode(elems, name)
  {
  }

  lemma JoinFour(a: string, b: string, c: string, d: string, sep: char)
    ensures Join([a, b, c, d], sep) == a + [sep] + b + [sep] + c + [sep] + d
  {
    assert [c, d][1..] == [d];
    assert Join([c, d], sep) == c + [sep] + d;
    assert [b, c, d][1..] == [c, d];
    assert Join([b, c, d], sep) == b + [sep] + (c + [sep] + d);
    assert [a, b, c, d][1..] == [b, c, d];
    assert Join([a, b, c, d], sep) == a + [sep] + (b + [sep] + (c + [sep] + d));
  }

  lemma NamePartsJoin(count: nat, s: Signature)
    requires HasRetCode(s)
    ensures Free(NameParts(count, s), '_')
    ensures Join(NameParts(count, s), '_') == FunctionName(count, s)
  {
    var xs := NameParts(count, s);
    assert Free(xs, '_') by {
      InitialsDistinct();
      DigitsFree(count / ChunkSize);
      SigCodeFree(s.ptypes, ParamName);
      SigCodeFree(s.fields, FieldName);
    }
    JoinFour(xs[0], xs[1], xs[2], xs[3], '_');
    assert xs == [xs[0], xs[1], xs[2], xs[3]];
  }

  /**
   * A function name determines the signature and the chunk: the codes of
   * different signatures never collide, since every part is free of '_'
   * and the initials of the constants are distinct.
   */
  lemma NameDeterminesSignature(c1: nat, s1: Signature, c2: nat, s2: Signature)
    requires HasRetCode(s1) && HasRetCode(s2)
    requires FunctionName(c1, s1) == FunctionName(c2, s2)
    ensures s1 == s2
    ensures c1 / ChunkSize == c2 / ChunkSize
  {
    NamePartsJoin(c1, s1);
    NamePartsJoin(c2, s2);
    SplitJoin(NameParts(c1, s1), '_');
    SplitJoin(NameParts(c2, s2), '_');
    var xs, ys := NameParts(c1, s1), NameParts(c2, s2);
    assert xs == ys;
    assert ToDigits(c1 / ChunkSize, 10) == xs[0][1..] == ys[0][1..] == ToDigits(c2 / ChunkSize, 10);
    ToDigitsInjective(c1 / ChunkSize, c2 / ChunkSize, 10);
    InitialsDistinct();
    SigCodeInjective(s1.ptypes, s2.ptypes, ParamName);
    SigCodeInjective(s1.fields, s2.fields, FieldName);
  }

  // ---------------------------------------------------------------------
  // The enumeration as the source runs it
  // ---------------------------------------------------------------------

  /** What the loops have produced for the signatures in `done`. */
  ghost predicate Tracks(functions: nat, downcalls: seq<Downcall>, done: seq<Signature>, sampleFactor: int)
  {
    sampleFactor != 0 && functions == |done| && AllHaveRetCode(done) && downcalls == Numbered(done, sampleFactor)
  }

  /** The body of the innermost loops: count, name and maybe keep one signature. */
  method EmitSignature(s: Signature, retCode: string, sigCode: string, structCode: string,
                       functions: nat, downcalls: seq<Downcall>, ghost done: seq<Signature>, sampleFactor: int)
    returns (next: nat, rows: seq<Downcall>)
    requires Tracks(functions, downcalls, done, sampleFactor) && HasRetCode(s)
    requires retCode == RetCode(s) && sigCode == SigCode(s.ptypes, ParamName) && structCode == SigCode(s.fields, FieldName)
    ensures Tracks(next, rows, done + [s], sampleFactor)
  {
    var count := functions;
    var fCode := functions / ChunkSize;
    next := functions + 1;
    var fName := "f" + ToDigits(fCode, 10) + "_" + retCode + "_" + sigCode + "_" + structCode;
    rows := downcalls;
    if sampleFactor == -1 || count % sampleFactor == 0 {
      rows := downcalls + [Downcall(count, fName, s.ret, s.ptypes, s.fields)];
    }
    NumberedSnoc(done, s, sampleFactor);
  }

  /** `for (List<StructFieldType> fields : StructFieldType.perms(j))`. */
  method EmitFieldLists(r: Ret, ptypes: seq<ParamType>, retCode: string, sigCode: string,
                        fieldsList: seq<seq<StructFieldType>>,
                        functions: nat, downcalls: seq<Downcall>, ghost done: seq<Signature>, sampleFactor: int)
    returns (next: nat, rows: seq<Downcall>)
    requires Tracks(functions, downcalls, done, sampleFactor) && HasRetCode(Signature(r, ptypes, []))
    requires retCode == RetCode(Signature(r, ptypes, [])) && sigCode == SigCode(ptypes, ParamName)
    ensures Tracks(next, rows, done + WithFields(r, ptypes, fieldsList), sampleFactor)
  {
    next, rows := functions, downcalls;
    assert done + WithFields(r, ptypes, fieldsList[..0]) == done;
    for m := 0 to |fieldsList|
      invariant Tracks(next, rows, done + WithFields(r, ptypes, fieldsList[..m]), sampleFactor)
    {
      var fields := fieldsList[m];
      var structCode := SigCode(fields, FieldName);
      ghost var before := done + WithFields(r, ptypes, fieldsList[..m]);
      next, rows := EmitSignature(Signature(r, ptypes, fields), retCode, sigCode, structCode, next, rows, before, sampleFactor);
      assert fieldsList[..m + 1][..m] == fieldsList[..m];
      Assoc(done, WithFields(r, ptypes, fieldsList[..m]), [Signature(r, ptypes, fields)]);
    }
    assert fieldsList[..|fieldsList|] == fieldsList;
  }

  /** `for (int j = 1; j <= MAX_FIELDS; j++)`: a parameter list holding a struct. */
  method EmitStructs(r: Ret, ptypes: seq<ParamType>, retCode: string, sigCode: string, fieldPerms: PermsMemo<StructFieldType>,
                     functions: nat, downcalls: seq<Downcall>, ghost done: seq<Signature>, sampleFactor: int)
    returns (next: nat, rows: seq<Downcall>)
    requires Tracks(functions, downcalls, done, sampleFactor) && HasRetCode(Signature(r, ptypes, []))
    requires retCode == RetCode(Signature(r, ptypes, [])) && sigCode == SigCode(ptypes, ParamName)
    requires fieldPerms.Valid() && fieldPerms.values == StructFieldTypes
    modifies fieldPerms.perms
    ensures fieldPerms.Valid()
    ensures Tracks(next, rows, done + StructSignatures(r, ptypes, MaxFields), sampleFactor)
  {
    next, rows := functions, downcalls;
    assert done + StructSignatures(r, ptypes, 0) == done;
    for j := 1 to MaxFields + 1
      invariant fieldPerms.Valid()
      invariant Tracks(next, rows, done + StructSignatures(r, ptypes, j - 1), sampleFactor)
    {
      var fieldsList := fieldPerms.Perms(j);
      ghost var before := done + StructSignatures(r, ptypes, j - 1);
      next, rows := EmitFieldLists(r, ptypes, retCode, sigCode, fieldsList, next, rows, before, sampleFactor);
      Assoc(done, StructSignatures(r, ptypes, j - 1), WithFields(r, ptypes, fieldsList));
    }
  }

  /** `for (List<ParamType> ptypes : ParamType.perms(i))`. */
  method EmitParamLists(r: Ret, ptypesList: seq<seq<ParamType>>, fieldPerms: PermsMemo<StructFieldType>,
                        functions: nat, downcalls: seq<Downcall>, ghost done: seq<Signature>, sampleFactor: int)
    returns (next: nat, rows: seq<Downcall>)
    requires Tracks(functions, downcalls, done, sampleFactor)
    requires forall k :: 0 <= k < |ptypesList| ==> HasRetCode(Signature(r, ptypesList[k], []))
    requires fieldPerms.Valid() && fieldPerms.values == StructFieldTypes
    modifies fieldPerms.perms
    ensures fieldPerms.Valid()
    ensures Tracks(next, rows, done + ListSignatures(r, ptypesList), sampleFactor)
  {
    next, rows := functions, downcalls;
    assert done + ListSignatures(r, ptypesList[..0]) == done;
    for k := 0 to |ptypesList|
      invariant fieldPerms.Valid()
      invariant Tracks(next, rows, done + ListSignatures(r, ptypesList[..k]), sampleFactor)
    {
      var ptypes := ptypesList[k];
      var retCode := if r == Ret.Void then "V" else [ParamName(ptypes[0])[0]];
      var sigCode := SigCode(ptypes, ParamName);
      ghost var before := done + ListSignatures(r, ptypesList[..k]);
      if ParamType.Struct in ptypes {
        next, rows := EmitStructs(r, ptypes, retCode, sigCode, fieldPerms, next, rows, before, sampleFactor);
      } else {
        var structCode := SigCode([], FieldName);
        next, rows := EmitSignature(Signature(r, ptypes, []), retCode, sigCode, structCode, next, rows, before, sampleFactor);
      }
      ListSignaturesPrefix(r, ptypesList, k);
      Assoc(done, ListSignatures(r, ptypesList[..k]), ParamSignatures(r, ptypes));
    }
    assert ptypesList[..|ptypesList|] == ptypesList;
  }

  /** `for (int i = 0; i <= MAX_PARAMS; i++)`, skipping non-void functions without parameters. */
  method EmitArities(r: Ret, paramPerms: PermsMemo<ParamType>, fieldPerms: PermsMemo<StructFieldType>,
                     functions: nat, downcalls: seq<Downcall>, ghost done: seq<Signature>, sampleFactor: int)
    returns (next: nat, rows: seq<Downcall>)
    requires Tracks(functions, downcalls, done, sampleFactor)
    requires paramPerms.Valid() && paramPerms.values == ParamTypes
    requires fieldPerms.Valid() && fieldPerms.values == StructFieldTypes
    modifies paramPerms.perms, fieldPerms.perms
    ensures paramPerms.Valid() && fieldPerms.Valid()
    ensures Tracks(next, rows, done + AritySignatures(r, MaxParams + 1), sampleFactor)
  {
    next, rows := functions, downcalls;
    assert done + AritySignatures(r, 0) == done;
    for i := 0 to MaxParams + 1
      invariant paramPerms.Valid() && fieldPerms.Valid()
      invariant Tracks(next, rows, done + AritySignatures(r, i), sampleFactor)
    {
      if r != Ret.Void && i == 0 {
        continue;
      }
      var ptypesList := paramPerms.Perms(i);
      TestsLengths(ParamTypes, i);
      ghost var before := done + AritySignatures(r, i);
      next, rows := EmitParamLists(r, ptypesList, fieldPerms, next, rows, before, sampleFactor);
      Assoc(done, AritySignatures(r, i), ListSignatures(r, ptypesList));
    }
  }

  /**
   * `functions()`: the data-provider rows for the factor read from
   * `generator.sample.factor`; the memo arrays stay consistent.
   */
  method Functions(paramPerms: PermsMemo<ParamType>, fieldPerms: PermsMemo<StructFieldType>, sampleFactor: int)
    returns (downcalls: seq<Downcall>)
    requires paramPerms.Valid() && paramPerms.values == ParamTypes
    requires fieldPerms.Valid() && fieldPerms.values == StructFieldTypes
    requires sampleFactor != 0
    modifies paramPerms.perms, fieldPerms.perms
    ensures paramPerms.Valid() && fieldPerms.Valid()
    ensures downcalls == Downcalls(sampleFactor)
  {
    var functions := 0;
    downcalls := [];
    for t := 0 to |Rets|
      invariant paramPerms.Valid() && fieldPerms.Valid()
      invariant Tracks(functions, downcalls, RetSignatures(Rets[..t]), sampleFactor)
    {
      var r := Rets[t];
      functions, downcalls := EmitArities(r, paramPerms, fieldPerms, functions, downcalls, RetSignatures(Rets[..t]), sampleFactor);
      assert Rets[..t + 1][..t] == Rets[..t];
    }
    assert Rets[..|Rets|] == Rets;
  }
}
