/** The paging record of src/model/page.ts and the offset arithmetic shared by
    contact search and address list. */
module Page {

  datatype Paging = Paging(size: int, total_page: int, current_page: int)

  /** One page of contact search. */
  datatype PageableContacts<T> = PageableContacts(contacts: seq<T>, paging: Paging)

  /** One page of an address list. */
  datatype PageableAddresses<T> = PageableAddresses(addresses: seq<T>, paging: Paging)

  /** `Math.ceil(total / size)` for a non-negative count and a positive size. */
  function CeilDiv(total: nat, size: nat): (pages: nat)
    requires size > 0
    ensures pages * size >= total
    ensures pages > 0 ==> (pages - 1) * size < total
  {
    var q := (total + size - 1) / size;
    var rm := (total + size - 1) % size;
    assert total + size - 1 == q * size + rm;
    assert q * size >= total;
    assert q > 0 ==> (q - 1) * size == q * size - size;
    q
  }

  /** The page count is the least number of pages of `size` rows that hold `total` rows. */
  lemma CeilDivIsLeast(total: nat, size: nat, k: nat)
    requires size > 0
    requires k * size >= total
    ensures CeilDiv(total, size) <= k
  {
  }

  /** Offset pagination: skip `skip` rows, then take at most `take`. */
  function Window<T>(rows: seq<T>, skip: nat, take: nat): (w: seq<T>)
    ensures |w| <= take
    ensures skip >= |rows| ==> w == []
    ensures skip < |rows| ==> |w| == if |rows| - skip < take then |rows| - skip else take
    ensures forall i | 0 <= i < |w| :: skip + i < |rows| && w[i] == rows[skip + i]
  {
    if skip >= |rows| then []
    else if |rows| - skip < take then rows[skip..]
    else rows[skip..skip + take]
  }

  /** The skip offset of a 1-based page: `(page - 1) * size`. */
  function Offset(page: int, size: nat): (o: nat)
    requires page >= 1
    ensures page == 1 ==> o == 0
    ensures page > 1 ==> o >= size
  {
    (page - 1) * size
  }

  /** The paging record contact search returns: the requested page and size and
      the page count rounded up. This is also the corrected address paging. */
  function PagingOf(page: int, size: nat, total: nat): (p: Paging)
    requires size > 0
    ensures p.current_page == page && p.size == size
    ensures p.total_page * size >= total
    ensures forall k: nat | k * size >= total :: p.total_page <= k
  {
    forall k: nat | k * size >= total ensures CeilDiv(total, size) <= k {
      CeilDivIsLeast(total, size, k);
    }
    Paging(size, CeilDiv(total, size), page)
  }

  /** The paging record address list builds, as written: the page number is
      echoed as the size and the row count is reported as the page count. */
  function AddressPagingAsWritten(page: int, size: nat, total: nat): (p: Paging)
    ensures p.current_page == page
    ensures p.size == page
    ensures p.total_page == total
  {
    Paging(page, total, page)
  }

  /** The defect, shown on the default request (page 1, size 10) of a contact
      with 25 addresses: 3 pages of 10 are needed, the record claims 25 pages of size 1. */
  lemma AddressPagingDefect()
    ensures AddressPagingAsWritten(1, 10, 25) == Paging(1, 25, 1)
    ensures PagingOf(1, 10, 25) == Paging(10, 3, 1)
    ensures AddressPagingAsWritten(1, 10, 25) != PagingOf(1, 10, 25)
  {
  }

  /** The as-written record agrees with the corrected one only when the page
      number happens to equal the size and the count is its own ceiling. */
  lemma AddressPagingAgreesOnlyWhen(page: int, size: nat, total: nat)
    requires size > 0
    ensures AddressPagingAsWritten(page, size, total) == PagingOf(page, size, total)
        <==> page == size && total == CeilDiv(total, size)
  {
  }

  /** With more than one row and a size of at least two, the as-written page
      count always exceeds the real one. */
  lemma AddressPagingOvercounts(size: nat, total: nat)
    requires size >= 2 && total >= 2
    ensures AddressPagingAsWritten(1, size, total).total_page > PagingOf(1, size, total).total_page
  {
    var p := CeilDiv(total, size);
    assert (p - 1) * size < total;
    if p >= total {
      MulMonotone(size, 2, p - 1);
    }
  }

  lemma MulMonotone(a: nat, b: nat, c: nat)
    requires a >= b
    ensures a * c >= b * c
  {
  }
}
