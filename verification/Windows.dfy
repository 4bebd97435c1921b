/** The last items of a history: what every bounded window should hold. */
module Windows {

  function LastN<T>(s: seq<T>, n: nat): seq<T> {
    if |s| <= n then s else s[|s| - n..]
  }

  /** Pushing onto a window of a history gives the window of the longer history. */
  lemma LastNPush<T>(s: seq<T>, x: T, n: nat)
    ensures LastN(LastN(s, n) + [x], n) == LastN(s + [x], n)
  {
    if |s| > n > 0 {
      assert (s[|s| - n..] + [x])[1..] == s[|s| - n + 1..] + [x] == (s + [x])[|s| + 1 - n..];
    }
  }

  /** A ring read from index `i` around. */
  function Rotated<T>(ring: seq<T>, i: nat): (r: seq<T>)
    requires i <= |ring|
    ensures |r| == |ring|
  {
    ring[i..] + ring[..i]
  }

  lemma NotRotated<T>(ring: seq<T>)
    ensures Rotated(ring, 0) == ring
  {
  }

  /** Overwriting the oldest slot of a full ring and moving on drops the
      oldest item and appends the new one. */
  lemma RotatedPush<T>(ring: seq<T>, i: nat, x: T)
    requires i < |ring|
    ensures Rotated(ring[i := x], (i + 1) % |ring|) == LastN(Rotated(ring, i) + [x], |ring|)
  {
    var next := ring[i := x];
    assert LastN(Rotated(ring, i) + [x], |ring|) == ring[i + 1..] + ring[..i] + [x];
    assert next[i + 1..] == ring[i + 1..] && next[..i + 1] == ring[..i] + [x];
    assert Rotated(next, i + 1) == ring[i + 1..] + (ring[..i] + [x]);
    assert i + 1 == |ring| ==> Rotated(next, i + 1) == Rotated(next, 0);
    SmallMod(i + 1, |ring|);
  }

  lemma SmallMod(i: nat, n: nat)
    requires 0 < n && i <= n
    ensures i % n == if i == n then 0 else i
  {
  }
}
