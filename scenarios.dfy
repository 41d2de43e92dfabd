/**
 Worked runs of the filter on small bubble trees, evaluated on the
 specification functions of `BubbleFilter`.
 */
module Scenarios {
  import opened Vcf
  import opened Config
  import opened BubbleFilter
  import opened Subsequence

  /** An allele of `n` bases. */
  function Bases(n: nat): seq<byte>
  {
    seq(n, _ => 65)
  }

  /** A single-allele record: REF of `n` bases and no ALT. */
  function Site(id: string, ps: Option<string>, lv: i32, n: nat): Record
    requires n <= USIZE_MAX
  {
    Record(id, ps, Some(lv), [Bases(n)])
  }

  /** `--max-level 0 --max-ref-length 40`, nothing else. */
  const ShallowShort: Flags := Flags(Some(0), None, None, Some(40), None)

  /** A record with one allele of `n` bases has REF length and longest allele `n`. */
  lemma SingleAlleleLengths(r: Record, n: nat)
    requires r.alleles == [Bases(n)] && n <= USIZE_MAX
    ensures WellFormed(r)
    ensures MaxLength(r.alleles) == n && RefAlleleLength(r) == n
  {
    assert AlleleLengths(r.alleles) == [n];
  }

  /**
   A top-level site `s1` with REF 50 (longest allele 60), a child `s2` with
   REF 5 and a child `s3` with REF 45, under `--max-level 0
   --max-ref-length 40` and open default ranges: `s1` and `s3` are popped for
   size, `s2` is too deep but is promoted because its parent was popped, so
   only `s2` is written.
   */
  lemma {:induction false} PromotionScenario()
    ensures
      var a := Record("s1", None, Some(0), [Bases(50), Bases(60)]);
      var b := Site("s2", Some("s1"), 1, 5);
      var c := Site("s3", Some("s1"), 1, 45);
      AllWellFormed([a, b, c]) && Output([a, b, c], ResolveIntended(ShallowShort)) == [b]
  {
    var a := Record("s1", None, Some(0), [Bases(50), Bases(60)]);
    var b := Site("s2", Some("s1"), 1, 5);
    var c := Site("s3", Some("s1"), 1, 45);
    var rs := [a, b, c];
    var t := ResolveIntended(ShallowShort);
    assert AlleleLengths(a.alleles) == [50, 60];
    assert MaxLength(a.alleles) == 60;
    SingleAlleleLengths(b, 5);
    SingleAlleleLengths(c, 45);
    assert SizeViolation(a, t) && !SizeViolation(b, t) && SizeViolation(c, t);
    assert PoppedIds([a], t) == {"s1"} by { assert [a][..0] == []; }
    assert PoppedIds([a, b], t) == {"s1"} by { assert [a, b][..1] == [a]; }
    assert PoppedIds(rs, t) == {"s1", "s3"} by { assert rs[..2] == [a, b]; }
    var mask := Decisions(rs, t);
    assert mask == [false, true, false];
    assert Select([a], [false]) == [] by { assert [a][..0] == []; }
    assert Select([a, b], [false, true]) == [b] by { assert [a, b][..1] == [a]; }
    assert Select(rs, mask) == [b] by { assert rs[..2] == [a, b] && mask[..2] == [false, true]; }
  }

  /**
   The same records under the same two flags with the source's own
   defaults: the absent minimum bounds are `usize::MAX`, so all three are
   popped and nothing is written.
   */
  lemma PromotionScenarioAsWritten()
    ensures
      var a := Record("s1", None, Some(0), [Bases(50), Bases(60)]);
      var b := Site("s2", Some("s1"), 1, 5);
      var c := Site("s3", Some("s1"), 1, 45);
      AllWellFormed([a, b, c]) && Output([a, b, c], Resolve(ShallowShort)) == []
  {
    var a := Record("s1", None, Some(0), [Bases(50), Bases(60)]);
    var b := Site("s2", Some("s1"), 1, 5);
    var c := Site("s3", Some("s1"), 1, 45);
    var rs := [a, b, c];
    var t := Resolve(ShallowShort);
    assert AlleleLengths(a.alleles) == [50, 60];
    SingleAlleleLengths(b, 5);
    SingleAlleleLengths(c, 45);
    assert SizeViolation(a, t) && SizeViolation(b, t) && SizeViolation(c, t);
    forall i | 0 <= i < |rs|
      ensures !Decisions(rs, t)[i]
    {
      SizeViolatorNeverWritten(rs, t, i);
    }
    SelectNone(rs, Decisions(rs, t));
  }

  /**
   Promotion looks at the immediate parent only: in the chain `g` (REF 50,
   popped) > `p` (REF 5, level 1) > `k` (REF 5, level 2) under
   `--max-level 0 --max-ref-length 40`, `p` is promoted but `k` is not,
   although its grandparent was popped.
   */
  lemma {:induction false} GrandparentNotPromoting()
    ensures
      var g := Site("g", None, 0, 50);
      var p := Site("p", Some("g"), 1, 5);
      var k := Site("k", Some("p"), 2, 5);
      AllWellFormed([g, p, k]) && Output([g, p, k], ResolveIntended(ShallowShort)) == [p]
  {
    var g := Site("g", None, 0, 50);
    var p := Site("p", Some("g"), 1, 5);
    var k := Site("k", Some("p"), 2, 5);
    var rs := [g, p, k];
    var t := ResolveIntended(ShallowShort);
    SingleAlleleLengths(g, 50);
    SingleAlleleLengths(p, 5);
    SingleAlleleLengths(k, 5);
    assert SizeViolation(g, t) && !SizeViolation(p, t) && !SizeViolation(k, t);
    assert PoppedIds([g], t) == {"g"} by { assert [g][..0] == []; }
    assert PoppedIds([g, p], t) == {"g"} by { assert [g, p][..1] == [g]; }
    assert PoppedIds(rs, t) == {"g"} by { assert rs[..2] == [g, p]; }
    var mask := Decisions(rs, t);
    assert mask == [false, true, false];
    assert Select([g], [false]) == [] by { assert [g][..0] == []; }
    assert Select([g, p], [false, true]) == [p] by { assert [g, p][..1] == [g]; }
    assert Select(rs, mask) == [p] by { assert rs[..2] == [g, p] && mask[..2] == [false, true]; }
  }
}
