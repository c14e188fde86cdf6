/** The paginated response envelope: counters passed through, a page count,
    and a data field meant never to encode as JSON `null`. */
module Pagination {

  /** The dynamic value held by the envelope's `interface{}` data field: no
      value at all, a nil slice of some element type, or a slice with items. */
  datatype Payload<T> = NilInterface | NilSlice | Items(items: seq<T>)

  /** The JSON the data field encodes to: a nil interface and a nil slice
      both encode as `null`; a non-nil slice, empty or not, as an array. */
  datatype Json<T> = Null | Array(elems: seq<T>)

  function Encode<T>(p: Payload<T>): (j: Json<T>)
    ensures j.Null? <==> p.NilInterface? || p.NilSlice?
    ensures p.Items? ==> j.elems == p.items
  {
    match p
    case NilInterface => Null
    case NilSlice => Null
    case Items(xs) => Array(xs)
  }

  function Abs(x: int): nat
  {
    if x < 0 then -x else x
  }

  /** The remainder Go's truncating division leaves: it has the sign of
      the dividend and is smaller than the divisor in magnitude. */
  predicate TruncRemainder(a: int, b: int, q: int)
  {
    var r := a - q * b;
    Abs(r) < Abs(b) && (a >= 0 ==> r >= 0) && (a < 0 ==> r <= 0)
  }

  /** Integer division truncating toward zero, as Go's `/` on `int`. */
  function GoDiv(a: int, b: int): (q: int)
    requires b != 0
    ensures TruncRemainder(a, b, q)
  {
    if a >= 0 && b > 0 then
      QuotientSameSign(a, b); a / b
    else if a >= 0 then
      QuotientNegDivisor(a, -b); -(a / -b)
    else if b > 0 then
      QuotientNegDividend(-a, b); -(-a / b)
    else
      QuotientBothNeg(-a, -b); -a / -b
  }

  lemma QuotientSameSign(x: int, y: int)
    requires x >= 0 && y > 0
    ensures TruncRemainder(x, y, x / y)
  {
  }

  lemma QuotientNegDivisor(x: int, y: int)
    requires x >= 0 && y > 0
    ensures TruncRemainder(x, -y, -(x / y))
  {
    var m := x / y;
    assert (-m) * (-y) == m * y;
  }

  lemma QuotientNegDividend(x: int, y: int)
    requires x > 0 && y > 0
    ensures TruncRemainder(-x, y, -(x / y))
  {
    var m := x / y;
    assert (-m) * y == -(m * y);
  }

  lemma QuotientBothNeg(x: int, y: int)
    requires x > 0 && y > 0
    ensures TruncRemainder(-x, -y, x / y)
  {
    var m := x / y;
    assert m * (-y) == -(m * y);
  }

  datatype Page<T> = Page(total: int, page: int, limit: int, totalPages: int, data: Payload<T>)

  /** The page count: zero for a non-positive limit; for a count of items
      and a positive page size, the least number of pages that holds them
      all. */
  function TotalPages(total: int, limit: int): (n: int)
    ensures limit <= 0 ==> n == 0
    ensures total >= 0 && limit > 0 ==> n >= 0 && n * limit >= total && n * limit - limit < total
  {
    if limit > 0 then GoDiv(total + limit - 1, limit) else 0
  }

  /** `NewPagination` as written: only a nil interface is replaced by an
      empty slice; every counter passes through unchanged. */
  function NewPagination<T>(data: Payload<T>, total: int, page: int, limit: int): (p: Page<T>)
    ensures p.total == total && p.page == page && p.limit == limit
    ensures limit <= 0 ==> p.totalPages == 0
    ensures limit > 0 ==> p.totalPages == TotalPages(total, limit)
    ensures data.NilInterface? ==> p.data == Items([])
    ensures !data.NilInterface? ==> p.data == data
  {
    var d := if data.NilInterface? then Items([]) else data;
    Page(total, page, limit, TotalPages(total, limit), d)
  }

  /** The envelope promises data that is never nil, but a nil slice of a
      concrete type is a non-nil interface value: it passes the check and
      still encodes as `null`. */
  lemma NilSliceEncodesNull<T>(total: int, page: int, limit: int)
    ensures Encode(NewPagination<T>(NilSlice, total, page, limit).data).Null?
  {
  }

  /** The envelope as intended: any nil data, interface or slice, becomes an
      empty array; the counters are those of `NewPagination`. */
  function NewPaginationNonNil<T>(data: Payload<T>, total: int, page: int, limit: int): (p: Page<T>)
    ensures Encode(p.data).Array?
    ensures data.Items? ==> p.data == data
    ensures p.total == total && p.page == page && p.limit == limit
    ensures p.totalPages == NewPagination(data, total, page, limit).totalPages
  {
    var d := if data.Items? then data else Items([]);
    Page(total, page, limit, TotalPages(total, limit), d)
  }

  /** The intended envelope differs from the written one only for a nil
      slice, and it encodes every payload's items as they are. */
  lemma NonNilAgreesOnItems<T>(data: Payload<T>, total: int, page: int, limit: int)
    ensures !data.NilSlice? ==> NewPaginationNonNil(data, total, page, limit) == NewPagination(data, total, page, limit)
    ensures Encode(NewPaginationNonNil(data, total, page, limit).data).elems == if data.Items? then data.items else []
  {
  }
}
