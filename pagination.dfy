/**
 * The manual pagination of the user-specific comment listing.
 *
 * The listing is sliced by hand: the page's offset, a `long`, is cast to
 * `int`, the end is `min(from + size, length)` in `int` arithmetic, and the
 * content is the sublist between them when `from < to`. The page object
 * then adjusts its total the way `PageImpl` does.
 *
 * The cast wraps for offsets of 2^31 and more, which page requests with
 * large page numbers reach; `SliceAsWritten` models the code as it stands
 * and `CommentStore.Slice` the slice it evidently means.
 */
module Pagination {
  import opened Wrappers
  import opened Text
  import opened CommentModel
  import opened CommentStore

  /** Java's narrowing of a `long` to an `int`: the low 32 bits, read as two's complement. */
  function Wrap32(x: int): (r: Int32)
    ensures -0x8000_0000 <= x < 0x8000_0000 ==> r == x
    ensures (r - x) % 0x1_0000_0000 == 0
  {
    ((x + 0x8000_0000) % 0x1_0000_0000) - 0x8000_0000
  }

  /**
   * The slicing as written: `from = (int) offset`, `to = min(from + size, n)`
   * with an `int` sum, the sublist `[from, to)` when `from < to` (which
   * throws for a negative `from`), and the empty list otherwise. On an
   * unpaged request the offset is not available and the call throws.
   */
  function SliceAsWritten<T>(s: seq<T>, p: Pageable): (r: Result<seq<T>, string>)
    ensures p.Unpaged? ==> r.Failure?
    ensures r.Success? ==> |r.value| <= |s|
  {
    match p
    case Unpaged => Failure("UnsupportedOperationException")
    case Paged(_, z) =>
      var from := Wrap32(Offset(p));
      var to := Min(Wrap32(from + z), |s|);
      if from < to then
        if from < 0 then Failure("IndexOutOfBoundsException") else Success(s[from..to])
      else Success([])
  }

  /** While offsets stay within `int` range the slicing as written is the intended slice. */
  lemma SliceAsWrittenAgrees<T>(s: seq<T>, p: Pageable)
    requires p.Paged? && Offset(p) + p.pageSize < 0x8000_0000
    ensures SliceAsWritten(s, p) == Success(Slice(s, p))
  {
  }

  /** The intended slice leaves the page object's total as given: the length of the listing. */
  lemma SliceKeepsTotal<T>(s: seq<T>, p: Pageable)
    ensures PageImplTotal(|Slice(s, p)|, p, |s|) == |s|
  {
    if p.Paged? && |Slice(s, p)| > 0 {
      assert Offset(p) < |s|;
    }
  }

  /**
   * Page 4194304 of size 1024 starts at offset 2^32, which the cast turns into
   * 0: a one-element listing answers with its first page instead of an empty
   * one, and the page then reports a total of 2^32 + 1.
   */
  lemma WrappedOffsetShowsFirstPage(x: Comment)
    ensures SliceAsWritten([x], Paged(4194304, 1024)) == Success([x])
    ensures Slice([x], Paged(4194304, 1024)) == []
    ensures PageImplTotal(1, Paged(4194304, 1024), 1) == 0x1_0000_0001
  {
    assert Offset(Paged(4194304, 1024)) == 0x1_0000_0000;
    assert Wrap32(0x1_0000_0000) == 0 && Wrap32(1024) == 1024;
    assert [x][0..1] == [x];
  }

  /** Page 2097152 of size 1024 starts at offset 2^31, which the cast makes negative: the sublist call throws. */
  lemma NegativeOffsetThrows(x: Comment)
    ensures SliceAsWritten([x], Paged(2097152, 1024)).Failure?
    ensures Slice([x], Paged(2097152, 1024)) == []
  {
    assert Offset(Paged(2097152, 1024)) == 0x8000_0000;
    assert Wrap32(0x8000_0000) == -0x8000_0000;
    assert Wrap32(-0x8000_0000 + 1024) == -0x8000_0000 + 1024;
  }

  /** Pages 0 to n - 1 of size `z`, one after the other. */
  function PagesUpTo<T>(s: seq<T>, z: PageSize, n: nat): seq<T>
    requires n <= 0x8000_0000
    decreases n
  {
    if n == 0 then [] else PagesUpTo(s, z, n - 1) + Slice(s, Paged(n - 1, z))
  }

  /** Consecutive pages tile the listing: the first n pages are its first n·z elements. */
  lemma {:induction false} PagesTile<T>(s: seq<T>, z: PageSize, n: nat)
    requires n <= 0x8000_0000
    ensures PagesUpTo(s, z, n) == s[..Min(n * z, |s|)]
    decreases n
  {
    if n > 0 {
      var m := n - 1;
      PagesTile(s, z, m);
      var off := m * z;
      NextOffset(n, z);
      PageSlice(s, m, z);
      TileStep(s, PagesUpTo(s, z, m), Min(off, |s|), Min(off + z, |s|), Slice(s, Paged(m, z)));
    }
  }

  /** Page m of size z is the part of the listing from m·z to (m + 1)·z, cut off at its end. */
  lemma PageSlice<T>(s: seq<T>, m: PageIndex, z: PageSize)
    ensures 0 <= m * z
    ensures Slice(s, Paged(m, z)) == s[Min(m * z, |s|)..Min(m * z + z, |s|)]
  {
    assert Offset(Paged(m, z)) == m * z;
  }

  lemma NextOffset(n: nat, z: int)
    requires n > 0
    ensures n * z == (n - 1) * z + z
  {
  }

  lemma TileStep<T>(s: seq<T>, prefix: seq<T>, lo: int, hi: int, piece: seq<T>)
    requires 0 <= lo <= hi <= |s| && prefix == s[..lo] && piece == s[lo..hi]
    ensures prefix + piece == s[..hi]
  {
  }
}
