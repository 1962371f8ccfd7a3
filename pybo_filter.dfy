/**
 * The two template helpers used by the question list page: a subtraction
 * filter and the row number shown next to each question, counted down from
 * the total so that the newest question carries the highest number.
 * Python integers are unbounded, so `int` is exact here.
 */
module PyboFilter {

  /** The `sub` filter. */
  function Sub(value: int, arg: int): (r: int)
    ensures r + arg == value
  {
    value - arg
  }

  /**
   * The `reverse_index` tag: `startIndex` is the 1-based index of the first
   * item of the page, `counter0` the 0-based position of the row on the page.
   */
  function ReverseIndex(totalCount: int, startIndex: int, counter0: int): (r: int)
    ensures r == Sub(totalCount, startIndex + counter0) + 1
  {
    totalCount - (startIndex + counter0) + 1
  }

  /** The first row of the first page shows the total. */
  lemma FirstRowShowsTotal(totalCount: int)
    ensures ReverseIndex(totalCount, 1, 0) == totalCount
  {
  }

  /** Moving one row down the page lowers the number by exactly one. */
  lemma NextRowIsOneLess(totalCount: int, startIndex: int, counter0: int)
    ensures ReverseIndex(totalCount, startIndex, counter0 + 1) == ReverseIndex(totalCount, startIndex, counter0) - 1
  {
  }

  /** The number stays positive as long as the row's 1-based index does not exceed the total. */
  lemma RowNumberPositive(totalCount: int, startIndex: int, counter0: int)
    requires startIndex + counter0 <= totalCount
    ensures ReverseIndex(totalCount, startIndex, counter0) >= 1
  {
  }

  /** The numbers shown for the `n` rows of a page starting at `startIndex`. */
  function PageNumbers(totalCount: int, startIndex: int, n: nat): (rows: seq<int>)
    ensures |rows| == n
    ensures forall k :: 0 <= k < n ==> rows[k] == ReverseIndex(totalCount, startIndex, k)
  {
    seq(n, k => ReverseIndex(totalCount, startIndex, k))
  }

  /**
   * On a page whose rows are items `startIndex .. startIndex + n - 1` of
   * `totalCount` (so `1 <= startIndex` and the last row exists), the numbers
   * count down strictly, all lie in `1 .. totalCount`, and the row number
   * of row `k`, the item at 1-based overall position `p = startIndex + k`,
   * is `totalCount - p + 1`.
   */
  lemma PageNumbersInRange(totalCount: int, startIndex: int, n: nat)
    requires 1 <= startIndex && startIndex + n - 1 <= totalCount
    ensures forall k :: 0 <= k < n ==> 1 <= PageNumbers(totalCount, startIndex, n)[k] <= totalCount
    ensures forall j, k :: 0 <= j < k < n ==> PageNumbers(totalCount, startIndex, n)[j] > PageNumbers(totalCount, startIndex, n)[k]
    ensures forall k :: 0 <= k < n ==> PageNumbers(totalCount, startIndex, n)[k] == totalCount - (startIndex + k) + 1
  {
  }
}
