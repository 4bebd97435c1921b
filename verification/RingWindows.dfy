/** A fixed-capacity rolling window over a ring of slots. */
module RingWindows {
  import opened MachineInts
  import opened Windows

  class RingWindow<T> {
    const buf: array<T>
    var head: nat
    var len: nat

    ghost predicate Valid()
      reads this
    {
      && 0 < buf.Length && head < buf.Length && len <= buf.Length
      && (len < buf.Length ==> head == 0)
    }

    /** The valid elements, oldest first. */
    ghost function Contents(): seq<T>
      reads this, buf
      requires Valid()
    {
      if len == buf.Length then Rotated(buf[..], head) else buf[..len]
    }

    constructor (capacity: nat, default: T)
      requires capacity > 0
      ensures Valid() && Contents() == [] && buf.Length == capacity && fresh(buf)
    {
      buf := new T[capacity](_ => default);
      head, len := 0, 0;
    }

    method Push(value: T)
      requires Valid()
      modifies this, buf
      ensures Valid() && Contents() == LastN(old(Contents()) + [value], buf.Length)
    {
      if len == buf.Length {
        RotatedPush(buf[..], head, value);
        ghost var ring := buf[..];
        hide Rotated, LastN;
        buf[head] := value;
        assert buf[..] == ring[head := value];
        head := (head + 1) % buf.Length;
      } else {
        SmallMod(len, buf.Length);
        var idx := (head + len) % buf.Length;
        NotRotated(buf[..len] + [value]);
        hide Rotated;
        buf[idx] := value;
        len := len + 1;
        assert buf[..len] == old(Contents()) + [value];
        assert buf[..] == buf[..buf.Length];
      }
    }

    method Clear()
      requires Valid()
      modifies this
      ensures Valid() && Contents() == []
    {
      head, len := 0, 0;
    }

    method Latest() returns (latest: Option<T>)
      requires Valid()
      ensures latest == if Contents() == [] then None else Some(Contents()[|Contents()| - 1])
    {
      if len == 0 {
        return None;
      }
      var idx := (head + len + buf.Length - 1) % buf.Length;
      LatestIndex(head, len, buf.Length);
      latest := Some(buf[idx]);
    }

    method Oldest() returns (oldest: Option<T>)
      requires Valid()
      ensures oldest == if Contents() == [] then None else Some(Contents()[0])
    {
      if len == 0 {
        return None;
      }
      oldest := Some(buf[head]);
    }

    /** Every valid element, oldest first: the two halves of a wrapped ring. */
    method Iter() returns (items: seq<T>)
      requires Valid()
      ensures items == Contents()
    {
      if len == buf.Length {
        items := buf[head..] + buf[..head];
        assert items == Rotated(buf[..], head);
      } else {
        items := buf[head..head + len] + buf[0..0];
      }
    }

    /** The `k` most recent elements, oldest of those first. */
    method IterRecent(k: nat) returns (items: seq<T>)
      requires Valid()
      ensures items == LastN(Contents(), k)
    {
      var take := Min(k, len);
      var skip := len - take;
      var all := Iter();
      items := all[skip..];
    }
  }

  lemma LatestIndex(head: nat, len: nat, n: nat)
    requires head < n && 0 < len <= n && (len < n ==> head == 0)
    ensures (head + len + n - 1) % n == if len < n then len - 1 else if head == 0 then n - 1 else head - 1
  {
    if len < n {
      AddMultiple(len - 1, 1, n);
    } else if head == 0 {
      AddMultiple(n - 1, 1, n);
    } else {
      AddMultiple(head - 1, 2, n);
    }
  }

  lemma AddMultiple(r: nat, k: nat, n: nat)
    requires r < n
    ensures (r + k * n) % n == r
  {
    if k > 0 {
      AddMultiple(r, k - 1, n);
      assert (r + k * n) == (r + (k - 1) * n) + n;
      AddOnce(r + (k - 1) * n, n);
    }
  }

  lemma AddOnce(x: nat, n: nat)
    requires n > 0
    ensures (x + n) % n == x % n
  {
    DivMod(x, n);
    DivMod(x + n, n);
    SameRemainder(x / n, x % n, (x + n) / n, (x + n) % n, n);
  }

  lemma SameRemainder(q: int, r: nat, q': int, r': nat, n: nat)
    requires r < n && r' < n && q * n + r + n == q' * n + r'
    ensures r' == r
  {
    Distribute(n, q, 1);
    Distribute(n, q, 2);
    Distribute(n, q', 1);
    MulCancelLess(q + 1, q' + 1, n);
    MulCancelLess(q', q + 2, n);
  }

  /* ----- Any run of pushes and clears ----- */

  datatype Op<T> = Push(value: T) | Clear

  /** What a window of capacity `n` holds after each operation's contract. */
  function RunOps<T>(ops: seq<Op<T>>, n: nat): seq<T> {
    if ops == [] then []
    else
      var before := RunOps(ops[..|ops| - 1], n);
      match ops[|ops| - 1]
      case Push(value) => LastN(before + [value], n)
      case Clear => []
  }

  /** Everything pushed since the last clear. */
  function SinceClear<T>(ops: seq<Op<T>>): seq<T> {
    if ops == [] then []
    else
      match ops[|ops| - 1]
      case Push(value) => SinceClear(ops[..|ops| - 1]) + [value]
      case Clear => []
  }

  /** The window is the last min(pushes, n) values since the last clear. */
  lemma {:induction false} WindowIsLastN<T>(ops: seq<Op<T>>, n: nat)
    ensures RunOps(ops, n) == LastN(SinceClear(ops), n)
  {
    if ops != [] {
      var before := ops[..|ops| - 1];
      WindowIsLastN(before, n);
      if ops[|ops| - 1].Push? {
        LastNPush(SinceClear(before), ops[|ops| - 1].value, n);
      }
    }
  }
}
