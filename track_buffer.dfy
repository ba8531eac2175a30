/**
 * The bounded position history `track`: each accepted fix is pushed at the
 * tail and, once the array holds more than 500 points, the oldest one is
 * shifted off the head.
 */
module TrackBuffer {

  /** A track point: (latitude, longitude) in degrees. */
  type Point = (real, real)

  /** The number of points the track keeps. */
  const Capacity: nat := 500

  /** `track.push(p); if (track.length > 500) track.shift();` on a value. */
  function Push(t: seq<Point>, p: Point): (r: seq<Point>)
    ensures |t| <= Capacity ==> |r| <= Capacity
    ensures |r| > 0 && r[|r| - 1] == p
    ensures |t| < Capacity ==> r == t + [p]
    ensures |t| == Capacity ==> |r| == Capacity && r == t[1..] + [p]
  {
    var pushed := t + [p];
    if |pushed| > Capacity then pushed[1..] else pushed
  }

  /** The last `n` elements of `s` (all of `s` when it is shorter). */
  function LastN<T>(s: seq<T>, n: nat): (r: seq<T>)
    ensures |r| == if |s| <= n then |s| else n
  {
    if |s| <= n then s else s[|s| - n..]
  }

  /** Pushing the points `ps` one after another, oldest first. */
  function PushAll(t: seq<Point>, ps: seq<Point>): seq<Point>
    decreases |ps|
  {
    if ps == [] then t else PushAll(Push(t, ps[0]), ps[1..])
  }

  /** Keeping the last `n` of the last `n` and something more is keeping the
      last `n` of everything. */
  lemma LastNOfLastN<T>(x: seq<T>, y: seq<T>, n: nat)
    ensures LastN(LastN(x, n) + y, n) == LastN(x + y, n)
  {
    if |x| > n {
      var m := |x| - n;
      var x' := x[m..];
      assert LastN(x, n) == x';
      var a, b := LastN(x' + y, n), LastN(x + y, n);
      assert |x' + y| == n + |y|;
      assert a == (x' + y)[|y|..];
      assert b == (x + y)[|x| + |y| - n..];
      forall i | 0 <= i < n
        ensures a[i] == b[i]
      {
        var j := |x| + |y| - n + i;
        assert b[i] == (x + y)[j];
        assert a[i] == (x' + y)[|y| + i];
        if j < |x| {
          assert |y| + i < n;
          assert (x' + y)[|y| + i] == x'[|y| + i] == x[j];
          assert (x + y)[j] == x[j];
        } else {
          assert (x' + y)[|y| + i] == y[|y| + i - n];
          assert (x + y)[j] == y[j - |x|];
        }
      }
    }
  }

  /** One push from a track within capacity keeps the last 500 points. */
  lemma PushIsLastN(t: seq<Point>, p: Point)
    requires |t| <= Capacity
    ensures Push(t, p) == LastN(t + [p], Capacity)
  {
    if |t| == Capacity {
      assert |t + [p]| == Capacity + 1;
      assert LastN(t + [p], Capacity) == (t + [p])[1..];
    }
  }

  /** FIFO window: starting from a track within capacity, pushing any
      sequence of points leaves exactly the last 500 of all points, oldest
      first. */
  lemma {:induction false} PushAllIsWindow(t: seq<Point>, ps: seq<Point>)
    requires |t| <= Capacity
    ensures PushAll(t, ps) == LastN(t + ps, Capacity)
    decreases |ps|
  {
    if ps == [] {
      assert t + ps == t;
    } else {
      var p, rest := ps[0], ps[1..];
      var t' := Push(t, p);
      assert PushAll(t, ps) == PushAll(t', rest);
      PushIsLastN(t, p);
      PushAllIsWindow(t', rest);
      LastNOfLastN(t + [p], rest, Capacity);
      assert (t + [p]) + rest == t + ps;
    }
  }

  /** From an empty track, 501 distinct pushes leave 500 points: every point
      except the first. */
  lemma FirstPointEvicted(ps: seq<Point>)
    requires |ps| == Capacity + 1
    ensures |PushAll([], ps)| == Capacity
    ensures PushAll([], ps) == ps[1..]
    ensures ps[0] != ps[1] ==> PushAll([], ps)[0] != ps[0]
  {
    PushAllIsWindow([], ps);
    assert [] + ps == ps;
  }
}
