/** Deques of bounded length: appending drops from the left. */
module BoundedDeque {

  /** Appending to a deque of bounded length drops from the left. */
  function Push<T>(d: seq<T>, x: T, maxlen: nat): seq<T> {
    if |d| < maxlen then d + [x] else if maxlen == 0 then [] else (d + [x])[|d| + 1 - maxlen..]
  }

  function Extend<T>(d: seq<T>, xs: seq<T>, maxlen: nat): seq<T>
    decreases |xs|
  {
    if xs == [] then d else Extend(Push(d, xs[0], maxlen), xs[1..], maxlen)
  }

  /** The last `n` elements. */
  function Last<T>(xs: seq<T>, n: nat): seq<T> { if |xs| <= n then xs else xs[|xs| - n..] }

  lemma PushIsLast<T>(xs: seq<T>, x: T, maxlen: nat)
    ensures Push(Last(xs, maxlen), x, maxlen) == Last(xs + [x], maxlen)
  {
    if maxlen > 0 && |xs| >= maxlen {
      var d := Last(xs, maxlen);
      assert |d| == maxlen;
      assert (d + [x])[1..] == d[1..] + [x];
      assert d[1..] == xs[|xs| + 1 - maxlen..];
      assert (xs + [x])[|xs| + 1 - maxlen..] == xs[|xs| + 1 - maxlen..] + [x];
    }
  }

  /** A bounded deque holds the last `maxlen` elements of everything appended to it. */
  lemma {:induction false} ExtendIsLast<T>(xs: seq<T>, ys: seq<T>, maxlen: nat)
    ensures Extend(Last(xs, maxlen), ys, maxlen) == Last(xs + ys, maxlen)
    decreases |ys|
  {
    if ys == [] {
      assert xs + ys == xs;
    } else {
      PushIsLast(xs, ys[0], maxlen);
      ExtendIsLast(xs + [ys[0]], ys[1..], maxlen);
      assert xs + ys == (xs + [ys[0]]) + ys[1..];
    }
  }

  lemma LastOfLonger<T>(a: seq<T>, b: seq<T>, n: nat)
    requires |b| >= n
    ensures Last(a + b, n) == Last(b, n)
  {
  }
}
