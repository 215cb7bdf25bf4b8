/** The `(flags, mask)` contract shared by the transaction, output and event tables: how a
    read filter selects rows and how a masked flag update merges into a stored mask. */
module FlagMasks {
  import opened Results
  import opened Constants

  /** A read filter: both halves are optional, as in the tables' `read(flags, mask)`. */
  datatype FlagFilter = FlagFilter(flags: Option<bv32>, mask: Option<bv32>)

  const NoFilter: FlagFilter := FlagFilter(None, None)

  /** Whether a stored mask passes a read filter. With only one half given, the row must share a
      bit with it; with both, the masked row must equal the flags exactly. So a row with no bit
      set is found only without a filter or by a filter whose flags are zero, and a row found by
      a two-part filter carries every flag of it. */
  function Matches(rowFlags: bv32, f: FlagFilter): (r: bool)
    ensures f == NoFilter ==> r
    ensures rowFlags == 0 ==> (r <==> f == NoFilter || (f.mask.Some? && f.flags == Some(0)))
    ensures r && f.flags.Some? && f.mask.Some? ==> rowFlags & f.flags.value == f.flags.value
  {
    match f
    case FlagFilter(None, None) => true
    case FlagFilter(None, Some(m)) => rowFlags & m != 0
    case FlagFilter(Some(fl), None) => rowFlags & fl != 0
    case FlagFilter(Some(fl), Some(m)) => rowFlags & m == fl
  }

  /** The masked update `update_flags` applies: the stored bits inside `mask` survive and the
      bits of `flags` are added; every other bit is cleared. The two clauses pin the result
      down bit by bit. */
  function MergeFlags(stored: bv32, flags: bv32, mask: bv32): (r: bv32)
    ensures r & flags == flags
    ensures r & !flags == stored & mask & !flags
  {
    (stored & mask) | flags
  }

  /** With an empty mask the update replaces the stored flags by exactly `flags`. */
  lemma MergeWithEmptyMask(stored: bv32, flags: bv32)
    ensures MergeFlags(stored, flags, 0) == flags
  {
  }

  /** When every stored bit lies inside the mask, the update only adds `flags`. */
  lemma MergeWithinMask(stored: bv32, flags: bv32, mask: bv32)
    requires stored & !mask == 0
    ensures MergeFlags(stored, flags, mask) == stored | flags
  {
  }

  /** What a masked update writes, a flags-only read finds: the written row passes a filter
      holding any of the written flags. */
  lemma UpdatedRowMatches(stored: bv32, flags: bv32, mask: bv32)
    requires flags != 0
    ensures Matches(MergeFlags(stored, flags, mask), FlagFilter(Some(flags), None))
  {
    var r := MergeFlags(stored, flags, mask);
    assert r & flags == flags;
  }

  /** Under an empty mask, a two-part read over any mask finds the written row by the part of
      the written flags inside that mask. */
  lemma ReplacedRowMatches(stored: bv32, flags: bv32, m: bv32)
    ensures Matches(MergeFlags(stored, flags, 0), FlagFilter(Some(flags & m), Some(m)))
  {
    MergeWithEmptyMask(stored, flags);
  }

  /** The two zones of the transaction mask do not overlap, so a mask made of field-presence bits
      leaves the state zone free for `flags` to fill. */
  lemma ZonesDisjoint()
    ensures StateMask & (MetadataFieldMask | HasByteData | HasProofData) == 0
  {
  }

  /** When the flags of a two-part filter have a bit outside its mask, no row matches. */
  lemma FullFilterMeaning(rowFlags: bv32, fl: bv32, m: bv32)
    ensures fl & !m != 0 ==> !Matches(rowFlags, FlagFilter(Some(fl), Some(m)))
  {
  }
}
