/**
 * The index arithmetic behind `playNext` and `playPrev`: JavaScript's `%`
 * on the track count, which truncates toward zero.
 */
module Navigation {

  /**
   * JavaScript's `a % n` for a positive divisor: the remainder takes the sign
   * of the dividend (Dafny's own `%` never returns a negative value).
   */
  function JsRemainder(a: int, n: int): (r: int)
    requires n > 0
    ensures -n < r < n
    ensures a >= 0 ==> r == a % n
    ensures a <= 0 ==> r <= 0
    ensures a < 0 ==> r == a + n * ((-a) / n)
  {
    if a >= 0 then a % n else -((-a) % n)
  }

  /** `(currentTrackIndex + 1) % tracks.songs.length`. */
  function NextIndex(i: int, n: int): (r: int)
    requires n > 0
    ensures 0 <= i < n ==> r == if i == n - 1 then 0 else i + 1
  {
    assert 0 <= i < n - 1 ==> (i + 1) % n == i + 1;
    assert i == n - 1 ==> (i + 1) % n == 0;
    JsRemainder(i + 1, n)
  }

  /** `(currentTrackIndex - 1 + tracks.songs.length) % tracks.songs.length`. */
  function PrevIndex(i: int, n: int): (r: int)
    requires n > 0
    ensures 0 <= i < n ==> r == if i == 0 then n - 1 else i - 1
  {
    JsRemainder(i - 1 + n, n)
  }

  /**
   * The wrap-around needs a non-negative index: from a negative one the
   * truncating `%` could leave the list's range.
   */
  lemma NegativeIndexEscapes()
    ensures PrevIndex(-4, 2) == -1
  {
  }

  /** Next and previous undo each other on every valid index. */
  lemma NextPrevInverse(i: int, n: int)
    requires 0 <= i < n
    ensures NextIndex(PrevIndex(i, n), n) == i
    ensures PrevIndex(NextIndex(i, n), n) == i
  {
  }

  /** The index reached after pressing "next" `k` times. */
  function NextTimes(i: int, n: int, k: nat): int
    requires n > 0
    decreases k
  {
    if k == 0 then i else NextTimes(NextIndex(i, n), n, k - 1)
  }

  /** `k` presses followed by `m` more are `k + m` presses. */
  lemma {:induction false} NextTimesAdd(i: int, n: int, k: nat, m: nat)
    requires n > 0
    ensures NextTimes(NextTimes(i, n, k), n, m) == NextTimes(i, n, k + m)
    decreases k
  {
    if k > 0 {
      NextTimesAdd(NextIndex(i, n), n, k - 1, m);
    }
  }

  /** Before reaching the end of the list, each press moves one row down. */
  lemma {:induction false} NextTimesNoWrap(i: int, n: int, k: nat)
    requires 0 <= i && i + k < n
    ensures NextTimes(i, n, k) == i + k
    decreases k
  {
    if k > 0 {
      NextTimesNoWrap(i + 1, n, k - 1);
    }
  }

  /** Pressing "next" as many times as there are tracks returns to the start. */
  lemma NextCycle(i: int, n: int)
    requires 0 <= i < n
    ensures NextTimes(i, n, n) == i
  {
    NextTimesNoWrap(i, n, n - 1 - i);
    NextTimesAdd(i, n, n - 1 - i, 1);
    NextTimesAdd(i, n, n - i, i);
    NextTimesNoWrap(0, n, i);
  }
}
