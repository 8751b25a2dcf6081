/**
 * The harness's seed hash `xfnv1a`: 32-bit FNV-1a over the UTF-16 code units
 * of a string, with `Math.imul`'s wrap-around multiply. A `bv32` holds the
 * running hash, so wrap-around is the type's own arithmetic.
 */
module FnvHash {
  import opened Text

  const OffsetBasis: bv32 := 0x811c9dc5
  const Prime: bv32 := 0x01000193

  /** One round: xor in the code unit, then multiply modulo 2^32. */
  function Step(hash: bv32, unit: CodeUnit): bv32 {
    (hash ^ (unit as bv32)) * Prime
  }

  /** The hash after absorbing `units` starting from `hash`, first unit first. */
  function Absorb(hash: bv32, units: seq<CodeUnit>): bv32
    decreases |units|
  {
    if |units| == 0 then hash else Absorb(Step(hash, units[0]), units[1..])
  }

  /** FNV-1a of a code-unit sequence. */
  function Fnv1a(units: seq<CodeUnit>): bv32 {
    Absorb(OffsetBasis, units)
  }

  /** Absorbing two pieces one after the other is absorbing their concatenation. */
  lemma {:induction false} AbsorbAppend(hash: bv32, a: seq<CodeUnit>, b: seq<CodeUnit>)
    ensures Absorb(hash, a + b) == Absorb(Absorb(hash, a), b)
    decreases |a|
  {
    if |a| == 0 {
      assert a + b == b;
    } else {
      AbsorbAppend(Step(hash, a[0]), a[1..], b);
      assert (a + b)[1..] == a[1..] + b;
    }
  }

  /** The hash extends one code unit at a time, which is what the loop does. */
  lemma Fnv1aSnoc(units: seq<CodeUnit>, u: CodeUnit)
    ensures Fnv1a(units + [u]) == Step(Fnv1a(units), u)
  {
    AbsorbAppend(OffsetBasis, units, [u]);
  }

  /**
   * `xfnv1a(input)`: the loop over `charCodeAt`, then `>>> 0` to read the
   * 32 bits as an unsigned number.
   */
  method Xfnv1a(input: string) returns (r: int)
    ensures 0 <= r < 0x1_0000_0000
    ensures r == Fnv1a(Utf16(input)) as int
  {
    var units := Utf16(input);
    var hash := OffsetBasis;
    var index := 0;
    while index < |units|
      invariant 0 <= index <= |units|
      invariant hash == Fnv1a(units[..index])
    {
      Fnv1aSnoc(units[..index], units[index]);
      assert units[..index + 1] == units[..index] + [units[index]];
      hash := Step(hash, units[index]);
      index := index + 1;
    }
    assert units[..index] == units;
    r := hash as int;
  }

  /** The empty string hashes to the offset basis, and "a" to the published FNV-1a value. */
  lemma KnownAnswers()
    ensures Fnv1a(Utf16("")) == 0x811c9dc5
    ensures Fnv1a(Utf16("a")) == 0xe40c292c
  {
    assert Utf16("a") == [0x61];
    assert Step(OffsetBasis, 0x61) == 0xe40c292c;
  }
}
