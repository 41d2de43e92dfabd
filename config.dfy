/**
 The five numeric bounds of one run, and how `main` in `src/main.rs` fills in
 the bounds whose command-line flag was not given.
 */
module Config {
  import opened Vcf

  /** The bounds of one run; every bound is inclusive. */
  datatype Thresholds = Thresholds(
    maxLevel: i32,
    maxAlleleLength: usize,
    minAlleleLength: usize,
    maxRefLength: usize,
    minRefLength: usize)

  /** The optional numeric flags after parsing: `None` when a flag was not given. */
  datatype Flags = Flags(
    maxLevel: Option<i32>,
    maxAlleleLength: Option<usize>,
    minAlleleLength: Option<usize>,
    maxRefLength: Option<usize>,
    minRefLength: Option<usize>)

  /** A command line that gives none of the numeric flags. */
  const NoFlags: Flags := Flags(None, None, None, None, None)

  function OrElse<T>(o: Option<T>, default: T): T
  {
    match o
    case Some(v) => v
    case None => default
  }

  /**
   The defaulting as the source writes it: an absent `--max-level` gives
   `i32::MAX` and every absent length flag, the two minimum bounds included,
   gives `usize::MAX`.
   */
  function Resolve(f: Flags): (t: Thresholds)
    ensures f.maxLevel.Some? ==> t.maxLevel == f.maxLevel.value
    ensures f.maxLevel.None? ==> t.maxLevel == I32_MAX
    ensures f.maxAlleleLength.Some? ==> t.maxAlleleLength == f.maxAlleleLength.value
    ensures f.maxAlleleLength.None? ==> t.maxAlleleLength == USIZE_MAX
    ensures f.minAlleleLength.Some? ==> t.minAlleleLength == f.minAlleleLength.value
    ensures f.minAlleleLength.None? ==> t.minAlleleLength == USIZE_MAX
    ensures f.maxRefLength.Some? ==> t.maxRefLength == f.maxRefLength.value
    ensures f.maxRefLength.None? ==> t.maxRefLength == USIZE_MAX
    ensures f.minRefLength.Some? ==> t.minRefLength == f.minRefLength.value
    ensures f.minRefLength.None? ==> t.minRefLength == USIZE_MAX
  {
    Thresholds(
      OrElse(f.maxLevel, I32_MAX),
      OrElse(f.maxAlleleLength, USIZE_MAX),
      OrElse(f.minAlleleLength, USIZE_MAX),
      OrElse(f.maxRefLength, USIZE_MAX),
      OrElse(f.minRefLength, USIZE_MAX))
  }

  /**
   The defaulting the flags' help texts describe: an absent
   bound leaves its side of the range open, so an absent minimum is 0.
   */
  function ResolveIntended(f: Flags): (t: Thresholds)
    ensures f.maxLevel.Some? ==> t.maxLevel == f.maxLevel.value
    ensures f.maxLevel.None? ==> t.maxLevel == I32_MAX
    ensures f.maxAlleleLength.Some? ==> t.maxAlleleLength == f.maxAlleleLength.value
    ensures f.maxAlleleLength.None? ==> t.maxAlleleLength == USIZE_MAX
    ensures f.minAlleleLength.Some? ==> t.minAlleleLength == f.minAlleleLength.value
    ensures f.minAlleleLength.None? ==> t.minAlleleLength == 0
    ensures f.maxRefLength.Some? ==> t.maxRefLength == f.maxRefLength.value
    ensures f.maxRefLength.None? ==> t.maxRefLength == USIZE_MAX
    ensures f.minRefLength.Some? ==> t.minRefLength == f.minRefLength.value
    ensures f.minRefLength.None? ==> t.minRefLength == 0
  {
    Thresholds(
      OrElse(f.maxLevel, I32_MAX),
      OrElse(f.maxAlleleLength, USIZE_MAX),
      OrElse(f.minAlleleLength, 0),
      OrElse(f.maxRefLength, USIZE_MAX),
      OrElse(f.minRefLength, 0))
  }
}
