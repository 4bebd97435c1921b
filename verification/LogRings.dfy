/** The bounded log buffer: drop the oldest when full, drain in order. */
module LogRings {
  import opened MachineInts
  import opened RingWindows

  class BoundedRingLogBuffer<T> {
    const buf: array<Option<T>>
    var head: nat
    var len: nat

    ghost predicate Valid()
      reads this, buf
    {
      Held(buf[..], head, len)
    }

    ghost function Contents(): seq<T>
      reads this, buf
      requires Valid()
    {
      Entries(buf[..], head, len)
    }

    constructor (capacity: nat)
      requires capacity > 0
      ensures Valid() && Contents() == [] && buf.Length == capacity
    {
      buf := new Option<T>[capacity](_ => None);
      head, len := 0, 0;
    }

    /** Push an entry, returning the displaced oldest one when full. */
    method Push(value: T) returns (displaced: Option<T>)
      requires Valid()
      modifies this, buf
      ensures Valid()
      ensures old(|Contents()|) == buf.Length ==>
                displaced == Some(old(Contents())[0]) && Contents() == old(Contents())[1..] + [value]
      ensures old(|Contents()|) < buf.Length ==>
                displaced == None && Contents() == old(Contents()) + [value]
      ensures After(Flow(old(Contents()), []), Op.Push(value), buf.Length)
           == Flow(Contents(), if displaced.Some? then [displaced.value] else [])
    {
      var cap := buf.Length;
      ghost var ring := buf[..];
      if len == cap {
        DisplaceOldest(ring, head, value);
        hide Held, Entries;
        displaced := buf[head];
        buf[head] := Some(value);
        assert buf[..] == ring[head := Some(value)];
        WrapIndex(head, 1, cap);
        head := (head + 1) % cap;
      } else {
        AppendEntry(ring, head, len, value);
        WrapIndex(head, len, cap);
        hide Held, Entries;
        var idx := (head + len) % cap;
        buf[idx] := Some(value);
        assert buf[..] == ring[idx := Some(value)];
        len := len + 1;
        displaced := None;
      }
    }

    /** Take every entry out in order. */
    method Drain() returns (out: seq<T>)
      requires Valid()
      modifies this, buf
      ensures Valid() && out == old(Contents()) && Contents() == []
      ensures After(Flow(old(Contents()), []), Op.Drain, buf.Length) == Flow(Contents(), out)
    {
      var cap := buf.Length;
      ghost var was := Contents();
      out := [];
      for i := 0 to len
        invariant head == old(head) && len == old(len)
        invariant out == was[..i]
        invariant forall j :: i <= j < len ==> buf[At(head, j, cap)] == Some(was[j])
      {
        WrapIndex(head, i, cap);
        var idx := (head + i) % cap;
        assert was[..i + 1] == was[..i] + [was[i]];
        if buf[idx].Some? {
          out := out + [buf[idx].value];
          buf[idx] := None;
        }
      }
      head, len := 0, 0;
    }
  }

  /** The slot `i` places after `head` on a ring of `n`. */
  function At(head: nat, i: nat, n: nat): (slot: nat)
    requires head < n && i <= n
    ensures slot < n || (head == 0 && i == n)
  {
    if head + i < n then head + i else head + i - n
  }

  /** The `len` slots from `head` on are in use. */
  ghost predicate Held<T>(ring: seq<Option<T>>, head: nat, len: nat) {
    && head < |ring| && len <= |ring|
    && forall i :: 0 <= i < len ==> ring[At(head, i, |ring|)].Some?
  }

  ghost function Entries<T>(ring: seq<Option<T>>, head: nat, len: nat): (entries: seq<T>)
    requires Held(ring, head, len)
    ensures |entries| == len
  {
    seq(len, i requires 0 <= i < len => ring[At(head, i, |ring|)].value)
  }

  /** Writing over the oldest entry of a full ring and moving on. */
  lemma DisplaceOldest<T>(ring: seq<Option<T>>, head: nat, value: T)
    requires Held(ring, head, |ring|)
    ensures var (n, next) := (|ring|, ring[head := Some(value)]);
            && Held(next, if head + 1 < n then head + 1 else 0, n)
            && Entries(next, if head + 1 < n then head + 1 else 0, n) == Entries(ring, head, n)[1..] + [value]
            && ring[head] == Some(Entries(ring, head, n)[0])
  {
    var n, next := |ring|, ring[head := Some(value)];
    var head' := if head + 1 < n then head + 1 else 0;
    forall i | 0 <= i < n
      ensures next[At(head', i, n)] == if i == n - 1 then Some(value) else ring[At(head, i + 1, n)]
    {
    }
    assert At(head, 0, n) == head;
  }

  /** Writing into the slot after the newest entry. */
  lemma AppendEntry<T>(ring: seq<Option<T>>, head: nat, len: nat, value: T)
    requires Held(ring, head, len) && len < |ring|
    ensures var next := ring[At(head, len, |ring|) := Some(value)];
            Held(next, head, len + 1) && Entries(next, head, len + 1) == Entries(ring, head, len) + [value]
  {
    var n := |ring|;
    var next := ring[At(head, len, n) := Some(value)];
    forall i | 0 <= i < len ensures next[At(head, i, n)] == ring[At(head, i, n)] {
    }
  }

  lemma WrapIndex(head: nat, i: nat, n: nat)
    requires head < n && i <= n
    ensures (head + i) % n == if head + i < n then head + i else head + i - n
  {
    if head + i < n {
      AddMultiple(head + i, 0, n);
    } else {
      AddMultiple(head + i - n, 1, n);
    }
  }

  /* ----- Any run of pushes and drains ----- */

  datatype Op<T> = Push(value: T) | Drain

  /** The contents, and everything that left in time order. */
  datatype Flow<T> = Flow(contents: seq<T>, left: seq<T>)

  function After<T>(f: Flow<T>, op: Op<T>, n: nat): Flow<T>
    requires n > 0
  {
    match op
    case Push(value) =>
      if |f.contents| == n then Flow(f.contents[1..] + [value], f.left + [f.contents[0]])
      else Flow(f.contents + [value], f.left)
    case Drain => Flow([], f.left + f.contents)
  }

  function RunOps<T>(ops: seq<Op<T>>, n: nat): Flow<T>
    requires n > 0
  {
    if ops == [] then Flow([], []) else After(RunOps(ops[..|ops| - 1], n), ops[|ops| - 1], n)
  }

  function Pushed<T>(ops: seq<Op<T>>): seq<T> {
    if ops == [] then []
    else Pushed(ops[..|ops| - 1]) + if ops[|ops| - 1].Push? then [ops[|ops| - 1].value] else []
  }

  /** The ring is globally first-in first-out and loses nothing silently:
      everything that left, displaced or drained, followed by what is still
      held, is everything ever pushed. */
  lemma {:induction false} NothingLost<T>(ops: seq<Op<T>>, n: nat)
    requires n > 0
    ensures var f := RunOps(ops, n);
            f.left + f.contents == Pushed(ops) && |f.contents| <= n
  {
    if ops != [] {
      var before, op := ops[..|ops| - 1], ops[|ops| - 1];
      NothingLost(before, n);
      var f := RunOps(before, n);
      if op.Push? && |f.contents| == n {
        assert f.contents == [f.contents[0]] + f.contents[1..];
        assert (f.left + [f.contents[0]]) + (f.contents[1..] + [op.value]) == f.left + f.contents + [op.value];
      }
    }
  }
}
