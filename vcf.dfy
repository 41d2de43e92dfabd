/**
 The slice of a VCF record that the bubble filter reads, and the per-record
 field extractors of `src/main.rs`: the nesting level (LV), the parent snarl
 (PS), the longest allele and the reference allele length.
 */
module Vcf {

  const I32_MAX: int := 0x7fff_ffff
  const I32_MIN: int := -0x8000_0000
  /** `usize::MAX` on a 64-bit target. */
  const USIZE_MAX: int := 0xffff_ffff_ffff_ffff

  type i32 = x: int | I32_MIN <= x <= I32_MAX
  type usize = x: int | 0 <= x <= USIZE_MAX
  type byte = x: int | 0 <= x < 256

  datatype Option<T> = None | Some(value: T)

  /**
   One variant site. `id` is the ID column (the bubble's own snarl id);
   `ps` is the first value of the PS tag, `None` when the record carries no
   readable PS value; `lv` is the first value of the LV tag, `None` when the
   record carries no LV value; `alleles` are the REF allele followed by the
   ALT alleles, as bytes.
   */
  datatype Record = Record(id: string, ps: Option<string>, lv: Option<i32>, alleles: seq<seq<byte>>)

  /** What every decoded record satisfies: a REF allele is always present and lengths are `usize`. */
  ghost predicate WellFormed(r: Record)
  {
    |r.alleles| > 0 && forall k :: 0 <= k < |r.alleles| ==> |r.alleles[k]| <= USIZE_MAX
  }

  /** `get_level`: the LV value, 0 when the record has none. */
  function Level(r: Record): (l: i32)
    ensures r.lv.Some? ==> l == r.lv.value
    ensures r.lv.None? ==> l == 0
  {
    match r.lv
    case Some(v) => v
    case None => 0
  }

  /** `get_parent_snarl`: the PS value, the empty string (top level) when there is none. */
  function ParentSnarl(r: Record): (p: string)
    ensures r.ps.Some? ==> p == r.ps.value
    ensures r.ps.None? ==> p == ""
  {
    match r.ps
    case Some(s) => s
    case None => ""
  }

  /** The largest element of a non-empty sequence (`iter().max()`). */
  function SeqMax(s: seq<int>): (m: int)
    requires |s| > 0
    ensures m in s
    ensures forall k :: 0 <= k < |s| ==> s[k] <= m
  {
    if |s| == 1 then s[0]
    else
      var rest := SeqMax(s[1..]);
      assert forall k :: 1 <= k < |s| ==> s[k] == s[1..][k - 1];
      if s[0] >= rest then s[0] else rest
  }

  /** The length of every allele, in allele order. */
  function AlleleLengths(alleles: seq<seq<byte>>): seq<int>
  {
    seq(|alleles|, k requires 0 <= k < |alleles| => |alleles[k]|)
  }

  /** The value `get_max_allele_length` computes, as a function. */
  function MaxLength(alleles: seq<seq<byte>>): int
    requires |alleles| > 0
  {
    SeqMax(AlleleLengths(alleles))
  }

  /**
   `get_max_allele_length`: collects the length of every allele, REF
   included, and returns the largest.
   */
  method MaxAlleleLength(r: Record) returns (m: usize)
    requires WellFormed(r)
    ensures m == MaxLength(r.alleles)
    ensures exists k :: 0 <= k < |r.alleles| && m == |r.alleles[k]|
    ensures forall k :: 0 <= k < |r.alleles| ==> |r.alleles[k]| <= m
  {
    var lengths: seq<int> := [];
    var i := 0;
    while i < |r.alleles|
      invariant 0 <= i <= |r.alleles|
      invariant |lengths| == i
      invariant forall k :: 0 <= k < i ==> lengths[k] == |r.alleles[k]|
    {
      lengths := lengths + [|r.alleles[i]|];
      i := i + 1;
    }
    assert lengths == AlleleLengths(r.alleles);
    m := SeqMax(lengths);
    ghost var k :| 0 <= k < |lengths| && lengths[k] == m;
    assert m == |r.alleles[k]|;
  }

  /** `get_ref_allele_length`: the length of the REF allele, `alleles[0]`. */
  function RefAlleleLength(r: Record): (n: usize)
    requires WellFormed(r)
    ensures n == |r.alleles[0]|
  {
    |r.alleles[0]|
  }

  /** The longest allele is never shorter than REF, since the maximum ranges over REF too. */
  lemma RefAtMostMax(r: Record)
    requires WellFormed(r)
    ensures RefAlleleLength(r) <= MaxLength(r.alleles)
  {
    assert AlleleLengths(r.alleles)[0] == |r.alleles[0]|;
  }
}
