/**
 * `collections.deque` with a `maxlen`, as used for the supervisor's log buffer and
 * its error-timestamp window, and the Python slice `list(q)[-n:]` that reads it.
 */
module Deque {

  /** `q.append(x)` on a deque of capacity `cap`: the oldest entries drop off the front. */
  function BoundedAppend<T>(q: seq<T>, x: T, cap: nat): (r: seq<T>)
    ensures |r| == if |q| + 1 <= cap then |q| + 1 else cap
    ensures r == (q + [x])[|q| + 1 - |r|..]
    ensures cap >= 1 ==> r[|r| - 1] == x
  {
    var s := q + [x];
    if |s| <= cap then s else s[|s| - cap..]
  }

  /** Below capacity nothing is evicted; at capacity exactly the oldest entry is. */
  lemma BoundedAppendFifo<T>(q: seq<T>, x: T, cap: nat)
    requires |q| <= cap
    ensures |q| < cap ==> BoundedAppend(q, x, cap) == q + [x]
    ensures 0 < |q| == cap ==> BoundedAppend(q, x, cap) == q[1..] + [x]
  {
    if 0 < |q| == cap {
      assert (q + [x])[1..] == q[1..] + [x];
    }
  }

  /** Python `xs[start:]` for any integer `start`. */
  function SliceFrom<T>(xs: seq<T>, start: int): (r: seq<T>)
    ensures |r| <= |xs| && r == xs[|xs| - |r|..]
    ensures start >= 0 ==> |r| == if start >= |xs| then 0 else |xs| - start
    ensures start < 0 ==> |r| == if -start >= |xs| then |xs| else -start
  {
    if start < 0 then xs[(if -start >= |xs| then 0 else |xs| + start)..]
    else xs[(if start >= |xs| then |xs| else start)..]
  }

  /**
   * `get_logs(max_lines)`: `list(log_queue)[-max_lines:]`. The result is always a
   * suffix of the buffer; for a positive count it is the last `min(n, len)` entries,
   * and because `-0 == 0` a count of zero returns the whole buffer.
   */
  function GetLogs<T>(buffer: seq<T>, maxLines: int): (r: seq<T>)
    ensures |r| <= |buffer| && r == buffer[|buffer| - |r|..]
    ensures maxLines >= 1 ==> |r| == if maxLines >= |buffer| then |buffer| else maxLines
    ensures maxLines == 0 ==> r == buffer
    ensures maxLines < 0 ==> |r| == if -maxLines >= |buffer| then 0 else |buffer| + maxLines
  {
    SliceFrom(buffer, -maxLines)
  }

  /** Reading at least as many lines as are stored returns the whole buffer. */
  lemma GetLogsAll<T>(buffer: seq<T>, maxLines: int)
    requires maxLines >= |buffer|
    ensures GetLogs(buffer, maxLines) == buffer
  {
  }

  /** Appending `xs` one by one to a deque of capacity `cap`. */
  function AppendAll<T>(q: seq<T>, xs: seq<T>, cap: nat): (r: seq<T>)
    ensures |q| <= cap ==> |r| <= cap
    decreases |xs|
  {
    if xs == [] then q else AppendAll(BoundedAppend(q, xs[0], cap), xs[1..], cap)
  }

  /** Appending `xs` and then `ys` is appending `xs + ys`. */
  lemma {:induction false} AppendAllConcat<T>(q: seq<T>, xs: seq<T>, ys: seq<T>, cap: nat)
    ensures AppendAll(AppendAll(q, xs, cap), ys, cap) == AppendAll(q, xs + ys, cap)
    decreases |xs|
  {
    if xs == [] {
      assert xs + ys == ys;
    } else {
      AppendAllConcat(BoundedAppend(q, xs[0], cap), xs[1..], ys, cap);
      assert (xs + ys)[0] == xs[0] && (xs + ys)[1..] == xs[1..] + ys;
    }
  }

  /** With room for every value nothing is evicted. */
  lemma AppendAllRoom<T>(q: seq<T>, xs: seq<T>, cap: nat)
    requires |q| + |xs| <= cap
    ensures AppendAll(q, xs, cap) == q + xs
  {
    AppendAllKeepsNewest(q, xs, cap);
  }

  /** Two appends in a row; with room for both nothing is evicted. */
  lemma AppendAllPair<T>(q: seq<T>, x: T, y: T, cap: nat)
    ensures AppendAll(AppendAll(q, [x], cap), [y], cap) == AppendAll(q, [x, y], cap)
    ensures |q| + 2 <= cap ==> AppendAll(q, [x, y], cap) == q + [x, y]
  {
    AppendAllConcat(q, [x], [y], cap);
    assert [x] + [y] == [x, y];
    if |q| + 2 <= cap {
      AppendAllKeepsNewest(q, [x, y], cap);
    }
  }

  /** The last `cap` values of `s` (all of them when there are fewer). */
  function Newest<T>(s: seq<T>, cap: nat): (r: seq<T>)
    ensures |r| == if |s| <= cap then |s| else cap
  {
    if |s| <= cap then s else s[|s| - cap..]
  }

  /** Keeping the newest `cap` values before appending more changes nothing at the end. */
  lemma NewestAbsorb<T>(a: seq<T>, b: seq<T>, cap: nat)
    ensures Newest(Newest(a, cap) + b, cap) == Newest(a + b, cap)
  {
    if |a| > cap {
      var i := |a| - cap;
      assert Newest(a, cap) + b == (a + b)[i..];
    }
  }

  /** A deque keeps exactly the last `cap` values ever appended to it. */
  lemma {:induction false} AppendAllKeepsNewest<T>(q: seq<T>, xs: seq<T>, cap: nat)
    requires |q| <= cap
    ensures AppendAll(q, xs, cap) == Newest(q + xs, cap)
    decreases |xs|
  {
    if xs == [] {
      assert q + xs == q;
    } else {
      var q1 := BoundedAppend(q, xs[0], cap);
      assert AppendAll(q, xs, cap) == AppendAll(q1, xs[1..], cap);
      assert q1 == Newest(q + [xs[0]], cap);
      AppendAllKeepsNewest(q1, xs[1..], cap);
      NewestAbsorb(q + [xs[0]], xs[1..], cap);
      assert q + [xs[0]] + xs[1..] == q + xs;
    }
  }
}
