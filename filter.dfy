/**
 The two-pass bubble filter of `main` in `src/main.rs`.

 Pass 1 (`Classify`) computes a keep flag per record and the set of bubble
 ids popped for a size violation; pass 2 (`Emit`) replays the same records
 and writes record `i` when its flag is set, or when its parent was popped
 and it was not (the promotion rule). The record source is a sequence read
 twice, so both passes see the same records in the same order.
 */
module BubbleFilter {
  import opened Vcf
  import opened Config
  import opened Subsequence

  ghost predicate AllWellFormed(rs: seq<Record>)
  {
    forall i :: 0 <= i < |rs| ==> WellFormed(rs[i])
  }

  /** The level check of pass 1: deeper than `maxLevel`. */
  predicate LevelViolation(r: Record, t: Thresholds)
  {
    Level(r) > t.maxLevel
  }

  /** The size check of pass 1: longest allele or REF outside its inclusive range. */
  predicate SizeViolation(r: Record, t: Thresholds)
    requires WellFormed(r)
  {
    var maxLength := MaxLength(r.alleles);
    var refLength := RefAlleleLength(r);
    maxLength > t.maxAlleleLength || maxLength < t.minAlleleLength
    || refLength > t.maxRefLength || refLength < t.minRefLength
  }

  /** The keep flag pass 1 records for one record. */
  predicate Keep(r: Record, t: Thresholds)
    requires WellFormed(r)
  {
    !LevelViolation(r, t) && !SizeViolation(r, t)
  }

  /** The ids pass 1 inserts into `popped_bubbles`, record after record. */
  function PoppedIds(rs: seq<Record>, t: Thresholds): set<string>
    requires AllWellFormed(rs)
    decreases |rs|
  {
    if |rs| == 0 then {}
    else
      var last := rs[|rs| - 1];
      PoppedIds(rs[..|rs| - 1], t) + (if SizeViolation(last, t) then {last.id} else {})
  }

  /** The flags pass 1 pushes onto `keep_record`. */
  function KeepFlags(rs: seq<Record>, t: Thresholds): seq<bool>
    requires AllWellFormed(rs)
  {
    seq(|rs|, i requires 0 <= i < |rs| => Keep(rs[i], t))
  }

  /** The write condition of pass 2 for one record. */
  predicate Writes(r: Record, keep: bool, popped: set<string>)
  {
    keep || (!keep && ParentSnarl(r) in popped && r.id !in popped)
  }

  /** The write condition of pass 2 applied at every index. */
  function WriteMask(rs: seq<Record>, keepRecord: seq<bool>, popped: set<string>): seq<bool>
    requires |keepRecord| == |rs|
  {
    seq(|rs|, i requires 0 <= i < |rs| => Writes(rs[i], keepRecord[i], popped))
  }

  /** Which records a whole run writes. */
  function Decisions(rs: seq<Record>, t: Thresholds): seq<bool>
    requires AllWellFormed(rs)
  {
    WriteMask(rs, KeepFlags(rs, t), PoppedIds(rs, t))
  }

  /** The records a whole run writes, in stream order. */
  function Output(rs: seq<Record>, t: Thresholds): seq<Record>
    requires AllWellFormed(rs)
  {
    Select(rs, Decisions(rs, t))
  }

  // ---------------------------------------------------------------------
  // Pass 1

  /**
   The classifier loop: one keep flag per record, false exactly when the
   record is too deep or has an allele or REF length out of range, and the
   set of ids of the records with a size violation.
   */
  method Classify(records: seq<Record>, t: Thresholds) returns (keepRecord: seq<bool>, poppedBubbles: set<string>)
    requires AllWellFormed(records)
    ensures |keepRecord| == |records|
    ensures forall i :: 0 <= i < |records| ==>
              (!keepRecord[i] <==>
                 (Level(records[i]) > t.maxLevel
                  || MaxLength(records[i].alleles) > t.maxAlleleLength
                  || MaxLength(records[i].alleles) < t.minAlleleLength
                  || RefAlleleLength(records[i]) > t.maxRefLength
                  || RefAlleleLength(records[i]) < t.minRefLength))
    ensures keepRecord == KeepFlags(records, t)
    ensures poppedBubbles == PoppedIds(records, t)
  {
    keepRecord := [];
    poppedBubbles := {};
    var idx := 0;
    while idx < |records|
      invariant 0 <= idx <= |records|
      invariant |keepRecord| == idx
      invariant forall i :: 0 <= i < idx ==> keepRecord[i] == Keep(records[i], t)
      invariant poppedBubbles == PoppedIds(records[..idx], t)
    {
      PoppedIdsStep(records, t, idx);
      keepRecord, poppedBubbles := ClassifyRecord(records[idx], t, keepRecord, poppedBubbles);
      idx := idx + 1;
    }
    assert records[..idx] == records;
  }

  /**
   The callback pass 1 runs on each record: it pushes the record's keep
   flag and, on a size violation, inserts the record's id.
   */
  method ClassifyRecord(r: Record, t: Thresholds, keepRecord: seq<bool>, poppedBubbles: set<string>)
    returns (keepRecord': seq<bool>, poppedBubbles': set<string>)
    requires WellFormed(r)
    ensures keepRecord' == keepRecord + [Keep(r, t)]
    ensures poppedBubbles' == poppedBubbles + (if SizeViolation(r, t) then {r.id} else {})
  {
    poppedBubbles' := poppedBubbles;
    var level := Level(r);
    var maxLength := MaxAlleleLength(r);
    var refLength := RefAlleleLength(r);
    var keep := true;
    if level > t.maxLevel {
      keep := false;
    }
    if maxLength > t.maxAlleleLength || maxLength < t.minAlleleLength
       || refLength > t.maxRefLength || refLength < t.minRefLength
    {
      poppedBubbles' := poppedBubbles' + {r.id};
      keep := false;
    }
    keepRecord' := keepRecord + [keep];
  }

  /** One more record extends the popped set by its id exactly when it fails a size bound. */
  lemma PoppedIdsStep(rs: seq<Record>, t: Thresholds, n: int)
    requires AllWellFormed(rs)
    requires 0 <= n < |rs|
    ensures PoppedIds(rs[..n + 1], t)
            == PoppedIds(rs[..n], t) + (if SizeViolation(rs[n], t) then {rs[n].id} else {})
  {
    assert rs[..n + 1][..n] == rs[..n];
  }

  // ---------------------------------------------------------------------
  // Pass 2

  /**
   The emitter loop: replays the records and writes, in order, those the
   pass-2 condition selects. `keepRecord` comes from pass 1 over the same
   records, so it has one flag per record.
   */
  method Emit(records: seq<Record>, keepRecord: seq<bool>, poppedBubbles: set<string>) returns (written: seq<Record>)
    requires |keepRecord| == |records|
    ensures written == Select(records, WriteMask(records, keepRecord, poppedBubbles))
  {
    ghost var mask := WriteMask(records, keepRecord, poppedBubbles);
    written := [];
    var idx := 0;
    while idx < |records|
      invariant 0 <= idx <= |records|
      invariant written == Select(records[..idx], mask[..idx])
    {
      var r := records[idx];
      var snarlId := r.id;
      var parentSnarl := ParentSnarl(r);
      if keepRecord[idx]
         || (!keepRecord[idx] && parentSnarl in poppedBubbles && snarlId !in poppedBubbles)
      {
        written := written + [r];
      }
      assert records[..idx + 1][..idx] == records[..idx];
      assert mask[..idx + 1][..idx] == mask[..idx];
      idx := idx + 1;
    }
    assert records[..idx] == records;
    assert mask[..idx] == mask;
  }

  /**
   Both passes of `main`: the records written are the input read at the
   increasing positions `Indices(Decisions(..))`, and position `i` is among
   them exactly when its keep flag is set or its parent was popped and it
   was not.
   */
  method Filter(records: seq<Record>, t: Thresholds) returns (written: seq<Record>)
    requires AllWellFormed(records)
    ensures written == Output(records, t)
    ensures SubsequenceAt(written, records, Indices(Decisions(records, t)))
    ensures |written| <= |records|
    ensures forall i :: 0 <= i < |records| ==>
              (i in Indices(Decisions(records, t)) <==>
                 (Keep(records[i], t)
                  || (!Keep(records[i], t)
                      && ParentSnarl(records[i]) in PoppedIds(records, t)
                      && records[i].id !in PoppedIds(records, t))))
  {
    var keepRecord, poppedBubbles := Classify(records, t);
    written := Emit(records, keepRecord, poppedBubbles);
    SelectIsSubsequence(records, Decisions(records, t));
  }

  // ---------------------------------------------------------------------
  // Properties of the decision

  /** An id is popped exactly when some record with that id fails a size bound. */
  lemma {:induction false} PoppedIdsExactly(rs: seq<Record>, t: Thresholds, id: string)
    requires AllWellFormed(rs)
    ensures id in PoppedIds(rs, t) <==> exists i :: 0 <= i < |rs| && rs[i].id == id && SizeViolation(rs[i], t)
    decreases |rs|
  {
    if |rs| > 0 {
      var n := |rs| - 1;
      PoppedIdsExactly(rs[..n], t, id);
      if id in PoppedIds(rs[..n], t) {
        var i :| 0 <= i < n && rs[..n][i].id == id && SizeViolation(rs[..n][i], t);
        assert rs[i] == rs[..n][i];
      }
      if i :| 0 <= i < |rs| && rs[i].id == id && SizeViolation(rs[i], t) {
        if i < n {
          assert rs[..n][i] == rs[i];
        }
      }
    }
  }

  /**
   The level bound plays no part in popping: whatever `maxLevel` is, the
   same ids are popped, so a record that only fails the level check never
   adds its id.
   */
  lemma {:induction false} PoppedIgnoresLevel(rs: seq<Record>, t: Thresholds, maxLevel: i32)
    requires AllWellFormed(rs)
    ensures PoppedIds(rs, t) == PoppedIds(rs, t.(maxLevel := maxLevel))
    decreases |rs|
  {
    if |rs| > 0 {
      PoppedIgnoresLevel(rs[..|rs| - 1], t, maxLevel);
    }
  }

  /** Ids are unique within the stream. */
  ghost predicate UniqueIds(rs: seq<Record>)
  {
    forall i, j :: 0 <= i < |rs| && 0 <= j < |rs| && rs[i].id == rs[j].id ==> i == j
  }

  /** With unique ids, a record's own id is popped exactly when it fails a size bound itself. */
  lemma OwnIdPopped(rs: seq<Record>, t: Thresholds, i: int)
    requires AllWellFormed(rs) && UniqueIds(rs)
    requires 0 <= i < |rs|
    ensures rs[i].id in PoppedIds(rs, t) <==> SizeViolation(rs[i], t)
  {
    PoppedIdsExactly(rs, t, rs[i].id);
  }

  /**
   A record that fails a size bound is never written, whatever its parent:
   its keep flag is false and its own id is popped.
   */
  lemma SizeViolatorNeverWritten(rs: seq<Record>, t: Thresholds, i: int)
    requires AllWellFormed(rs)
    requires 0 <= i < |rs|
    requires SizeViolation(rs[i], t)
    ensures rs[i].id in PoppedIds(rs, t)
    ensures !Decisions(rs, t)[i]
  {
    PoppedIdsExactly(rs, t, rs[i].id);
  }

  /**
   The promotion rule: with unique ids, a record that fails only the level
   check is written exactly when the record its PS names fails a size bound.
   */
  lemma PromotionRule(rs: seq<Record>, t: Thresholds, i: int)
    requires AllWellFormed(rs) && UniqueIds(rs)
    requires 0 <= i < |rs|
    requires LevelViolation(rs[i], t) && !SizeViolation(rs[i], t)
    ensures Decisions(rs, t)[i] <==>
              exists j :: 0 <= j < |rs| && rs[j].id == ParentSnarl(rs[i]) && SizeViolation(rs[j], t)
  {
    OwnIdPopped(rs, t, i);
    PoppedIdsExactly(rs, t, ParentSnarl(rs[i]));
  }

  /**
   Without unique ids: a record that fails the level check and shares its id
   with any record that fails a size bound is never written, even when its
   parent was popped, because its own id is in the popped set.
   */
  lemma SharedIdBlocksPromotion(rs: seq<Record>, t: Thresholds, i: int, j: int)
    requires AllWellFormed(rs)
    requires 0 <= i < |rs| && 0 <= j < |rs|
    requires LevelViolation(rs[i], t)
    requires rs[j].id == rs[i].id && SizeViolation(rs[j], t)
    ensures !Decisions(rs, t)[i]
  {
    PoppedIdsExactly(rs, t, rs[i].id);
  }

  // ---------------------------------------------------------------------
  // Defaults

  /** With no `--max-level`, the bound is `i32::MAX`, which no LV value exceeds. */
  lemma DefaultLevelNeverViolates(r: Record, f: Flags)
    requires f.maxLevel.None?
    ensures !LevelViolation(r, Resolve(f))
  {
  }

  /**
   With no `--min-ref-length`, the minimum REF length is `usize::MAX`: every
   record whose REF is shorter than that is popped and never written.
   */
  lemma DefaultMinRefPops(rs: seq<Record>, f: Flags, i: int)
    requires AllWellFormed(rs)
    requires f.minRefLength.None?
    requires 0 <= i < |rs| && RefAlleleLength(rs[i]) < USIZE_MAX
    ensures rs[i].id in PoppedIds(rs, Resolve(f))
    ensures !Decisions(rs, Resolve(f))[i]
  {
    SizeViolatorNeverWritten(rs, Resolve(f), i);
  }

  /**
   With no `--min-allele-length`, the minimum allele length is `usize::MAX`:
   every record whose longest allele is shorter than that is popped and
   never written.
   */
  lemma DefaultMinAllelePops(rs: seq<Record>, f: Flags, i: int)
    requires AllWellFormed(rs)
    requires f.minAlleleLength.None?
    requires 0 <= i < |rs| && MaxLength(rs[i].alleles) < USIZE_MAX
    ensures rs[i].id in PoppedIds(rs, Resolve(f))
    ensures !Decisions(rs, Resolve(f))[i]
  {
    SizeViolatorNeverWritten(rs, Resolve(f), i);
  }

  /**
   A run with none of the numeric flags, on records whose REF alleles are
   shorter than `usize::MAX` (all real ones), writes nothing at all.
   */
  lemma DefaultRunWritesNothing(rs: seq<Record>)
    requires AllWellFormed(rs)
    requires forall i :: 0 <= i < |rs| ==> RefAlleleLength(rs[i]) < USIZE_MAX
    ensures Output(rs, Resolve(NoFlags)) == []
  {
    var mask := Decisions(rs, Resolve(NoFlags));
    forall i | 0 <= i < |rs|
      ensures !mask[i]
    {
      DefaultMinRefPops(rs, NoFlags, i);
    }
    SelectNone(rs, mask);
  }

  /**
   With the intended defaults (open ranges), a run with none of the numeric
   flags passes every record through unchanged and in order.
   */
  lemma IntendedDefaultRunWritesAll(rs: seq<Record>)
    requires AllWellFormed(rs)
    ensures Output(rs, ResolveIntended(NoFlags)) == rs
  {
    var t := ResolveIntended(NoFlags);
    var mask := Decisions(rs, t);
    forall i | 0 <= i < |rs|
      ensures mask[i]
    {
      var r := rs[i];
      var lengths := AlleleLengths(r.alleles);
      var k :| k in lengths && k == MaxLength(r.alleles);
      assert Keep(r, t);
    }
    SelectAll(rs, mask);
  }
}
