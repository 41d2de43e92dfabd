# vcfbub bubble filter, modelled in Dafny

`vcfbub` filters the VCF output of `vg deconstruct` using the snarl tree. Each
record is one variant bubble. It carries its nesting level (LV tag) and the id
of its enclosing bubble (PS tag). `main` reads the input twice:

- **Pass 1, the classifier.** It computes a keep flag for each record. A
  record loses the flag when it is nested deeper than `--max-level`. It also
  loses the flag when its longest allele or its REF allele falls outside the
  inclusive length ranges. In the second case its id also goes into the set
  of popped bubbles.
- **Pass 2, the emitter.** It replays the records and writes record `i` when
  its flag is set. It also writes a record that lost its flag when its parent
  was popped and it was not (the promotion rule).

This project models those two passes, the per-record field extractors they
call, and the defaults `main` gives to absent flags. It proves what the
output is:

- an order-preserving selection of the input;
- membership in the output, stated as an if-and-only-if;
- how the popped set is made up;
- the promotion rule;
- what the defaults do.

Files:

- `vcf.dfy` (module `Vcf`): the record as the filter sees it, and the
  extractors `get_level`, `get_parent_snarl`, `get_max_allele_length` and
  `get_ref_allele_length`. It also fixes the integer widths: `i32`, and
  `usize` taken as 64 bits.
- `config.dfy` (module `Config`): the thresholds. `Resolve` is the
  defaulting as written. `ResolveIntended` is the corrected version (see
  Findings).
- `subsequence.dfy` (module `Subsequence`): `Select`, which keeps the
  masked elements in order, and the proof that its result is a subsequence.
- `filter.dfy` (module `BubbleFilter`): the two passes as methods with
  loops. Each is proved against specification functions (`SizeViolation`,
  `Keep`, `PoppedIds`, `Writes`, `Decisions`, `Output`), and the lemmas
  are stated about those functions.
- `scenarios.dfy` (module `Scenarios`): small bubble trees worked through
  the filter.

The record source is a `seq<Record>` that both passes read. This matches the
source's assumption that re-reading the file gives the same records in the
same order. The thresholds are a parameter of the filter, so the filter
itself does not depend on how they were defaulted. The source's defaults are
modelled separately in `Config.Resolve`.

The minimum-length flags' help texts (src/main.rs:117 and src/main.rs:134)
say "Filter sites whose ... is less than LENGTH", so an absent minimum
should filter nothing. The code instead defaults both minimums to
`usize::MAX` (see Findings). The model keeps the code's defaults in
`Config.Resolve` and gives the corrected defaults in
`Config.ResolveIntended`. LV is read as any `i32` (src/main.rs:26-34),
negative values included, and the model allows any `i32`.

The exact source conditions have their own predicates in `filter.dfy`:
`LevelViolation` is the level test at src/main.rs:183, `SizeViolation` the
length test at src/main.rs:187, `Keep` the resulting flag, and `Writes` the
pass-2 condition at src/main.rs:213-217.

Ids are not required to be unique, since the source does not enforce it.
`PoppedIdsExactly`, `SizeViolatorNeverWritten`, `SharedIdBlocksPromotion`
and `Filter` hold for any stream. Only `OwnIdPopped` and `PromotionRule`
assume unique ids. When ids repeat, the code as written does not promote a
level-only record whose id is shared with a record that fails a size
bound, because its own id is in the popped set.

## Model

| member | source | states |
|---|---|---|
| `Vcf.Level` | src/main.rs:24-35 | the level is the record's LV value, or 0 when the record has no LV value |
| `Vcf.ParentSnarl` | src/main.rs:41-51 | the parent is the PS value, or the empty string (top level) when there is no readable PS value |
| `Vcf.SeqMax` | src/main.rs:71 | the maximum of a non-empty sequence is one of its elements and no element exceeds it |
| `Vcf.MaxAlleleLength` | src/main.rs:66-72 | the loop over REF and ALT alleles returns the length of some allele, and no allele is longer |
| `Vcf.RefAlleleLength` | src/main.rs:74-76 | the REF length is the length of `alleles[0]` |
| `Vcf.RefAtMostMax` | src/main.rs:66-76 | the longest allele is never shorter than REF, because the maximum ranges over REF too |
| `Config.Resolve` | src/main.rs:148-169 | a given flag is used as is; an absent `--max-level` gives `i32::MAX`; every absent length flag gives `usize::MAX`, the two minimums included |
| `Config.ResolveIntended` | src/main.rs:157-169 | the corrected defaulting: absent minimum lengths are 0, absent maximums are as in the source |
| `BubbleFilter.ClassifyRecord` | src/main.rs:179-198 | the pass-1 callback pushes the record's keep flag, and inserts the record's id exactly when it has a size violation |
| `BubbleFilter.Classify` | src/main.rs:176-199 | one flag per record; flag `i` is false iff the level exceeds the maximum, or the longest allele or the REF length is outside its inclusive range; the popped set is what the per-record insertions build |
| `BubbleFilter.Emit` | src/main.rs:210-221 | the records written are exactly the replayed records that meet the pass-2 condition, in stream order |
| `BubbleFilter.Filter` | src/main.rs:176-221 | both passes together: the output is the input read at strictly increasing positions, so no position is written twice and the output is never longer than the input; position `i` is written iff its keep flag holds, or the flag is false, its parent id is popped and its own id is not |
| `BubbleFilter.PoppedIdsExactly` | src/main.rs:187-196 | an id is popped iff some record with that id fails a size bound |
| `BubbleFilter.PoppedIgnoresLevel` | src/main.rs:183-185 | the popped set does not depend on the level bound, so a level-only violation never adds an id |
| `BubbleFilter.OwnIdPopped` | src/main.rs:187-196 | with unique ids, a record's own id is popped iff that record fails a size bound |
| `BubbleFilter.SizeViolatorNeverWritten` | src/main.rs:187-217 | a record that fails a size bound has its id popped and is never written, whatever its parent's state |
| `BubbleFilter.PromotionRule` | src/main.rs:213-217 | with unique ids, a record that fails only the level check is written iff the record its PS names fails a size bound |
| `BubbleFilter.SharedIdBlocksPromotion` | src/main.rs:187-217 | without assuming unique ids, a record that fails the level check and shares its id with a record that fails a size bound is never written, whatever its parent |
| `BubbleFilter.DefaultLevelNeverViolates` | src/main.rs:148-151 | with no `--max-level`, no record fails the level check |
| `BubbleFilter.DefaultMinRefPops` | src/main.rs:166-169 | with no `--min-ref-length`, every record whose REF is shorter than `usize::MAX` is popped and not written |
| `BubbleFilter.DefaultMinAllelePops` | src/main.rs:157-160 | with no `--min-allele-length`, every record whose longest allele is shorter than `usize::MAX` is popped and not written |
| `BubbleFilter.DefaultRunWritesNothing` | src/main.rs:148-221 | with none of the numeric flags, on records whose REF is shorter than `usize::MAX`, the output is empty |
| `BubbleFilter.IntendedDefaultRunWritesAll` | src/main.rs:148-221 | with the corrected defaults and no numeric flags, the output equals the input |
| `Subsequence.SelectIsSubsequence` | src/main.rs:210-221 | writing the masked records in stream order gives the input at strictly increasing positions, exactly those whose mask bit is set, and no more records than the input |
| `Scenarios.PromotionScenario` | src/main.rs:183-217 | with `--max-level 0 --max-ref-length 40` and open ranges otherwise, only the shallow child of a popped top-level bubble is written, and its oversized sibling is not |
| `Scenarios.PromotionScenarioAsWritten` | src/main.rs:148-217 | the same run with the source's own defaults writes nothing |
| `Scenarios.GrandparentNotPromoting` | src/main.rs:213-217 | promotion looks only at the immediate parent: a too-deep grandchild of a popped bubble is dropped when its parent was not popped |

## Left out

- Command-line parsing with clap. This includes the `parse().unwrap()` panics on a malformed number and the required `--input` flag. The parsed optional flags are the input `Config.Flags`.
- htslib input and output. This covers opening the file, decoding records, copying the header and samples, and the writer. These are calls into a foreign library. The record source is a sequence of records and the sink is the returned sequence.
- The `--debug` diagnostic lines on standard error. They are a side channel and do not change the output.
- UTF-8 decoding of the id (`from_utf8(..).unwrap()`) and of the PS value (`from_utf8_lossy`). Ids and PS values are already strings.
- `Vcf.Level`: panics from `expect("Could not parse LV")` are not modelled. That call fails when the LV tag is not usable. `lv` holds only the first LV value, the only one the source reads.
- `Vcf.ParentSnarl`: a PS lookup error and an absent PS value both read as the empty string. The model does not tell them apart, since the source treats them the same.
- `Vcf.WellFormed`: the model assumes every record has a REF allele and allele lengths that fit in `usize`. In the source, `alleles()[0]` and `max().unwrap()` would panic without a REF allele; htslib always decodes one.
- Commented-out code: the header checks, `get_bubble_length`, and the older size condition.
- `usize` is taken to be 64 bits wide.
- Determinism (the same input and flags give the same output) holds by construction, because every specification function is a function. It is not stated as a separate lemma.

## Findings

| source | as written | input that shows it | evidently intended | confidence | as-written member | corrected member |
|---|---|---|---|---|---|---|
| src/main.rs:157-169 | an absent `--min-allele-length` or `--min-ref-length` defaults to `usize::MAX`, so every real record fails the minimum check and is popped | any run without the two minimum flags, on records with REF shorter than `usize::MAX`: nothing is written (`PromotionScenarioAsWritten` shows one such run) | an absent minimum leaves the range open below (0), so a run with no numeric flags writes every record unchanged | high, not executed | `BubbleFilter.DefaultRunWritesNothing` | `BubbleFilter.IntendedDefaultRunWritesAll` |
