/** The String channel: a ring buffer that refines a first-in first-out queue. */
module StringChannel {
  import opened Seqs
  import Refs = ChannelRefs

  /** A slot: the pointer and the length of a String. */
  datatype Slot = Slot(ptr: nat, len: int)

  /** The buffer position `i` places behind `head`. */
  function At(head: nat, i: nat, cap: nat): (p: nat)
    requires cap > 0
    ensures p < cap
  {
    (head + i) % cap
  }

  lemma AtWraps(head: nat, i: nat, cap: nat)
    requires head < cap && i <= cap
    ensures At(head, i, cap) == if head + i < cap then head + i else head + i - cap
  {
    var x := head + i;
    var q := x / cap;
    assert x == q * cap + x % cap;
    AtLeastTwice(q, cap);
  }

  lemma AtLeastTwice(q: nat, cap: nat)
    ensures q >= 2 ==> q * cap >= 2 * cap
    ensures q == 1 ==> q * cap == cap
  {
  }

  lemma AtsDiffer(head: nat, i: nat, j: nat, cap: nat)
    requires head < cap && i < j < cap
    ensures At(head, i, cap) != At(head, j, cap)
  {
    AtWraps(head, i, cap);
    AtWraps(head, j, cap);
  }

  /** Stepping the head moves every place one closer. */
  lemma AtSteps(head: nat, i: nat, cap: nat)
    requires head < cap && i < cap
    ensures At(At(head, 1, cap), i, cap) == At(head, i + 1, cap)
  {
    AtWraps(head, 1, cap);
    AtWraps(head, i + 1, cap);
    AtWraps(At(head, 1, cap), i, cap);
  }

  /** The queue a ring holds: `size` slots from `head` on. */
  function Ring(b: seq<Slot>, head: nat, size: nat): (q: seq<Slot>)
    requires head < |b| && size <= |b|
    ensures |q| == size
  {
    seq(size, (i: nat) => b[At(head, i, |b|)])
  }

  lemma RingPut(b: seq<Slot>, head: nat, size: nat, x: Slot)
    requires head < |b| && size < |b|
    ensures Ring(b[At(head, size, |b|) := x], head, size + 1) == Ring(b, head, size) + [x]
  {
    forall i | 0 <= i < size ensures At(head, i, |b|) != At(head, size, |b|) { AtsDiffer(head, i, size, |b|); }
    hide At;
  }

  lemma RingTake(b: seq<Slot>, head: nat, size: nat)
    requires head < |b| && 0 < size <= |b|
    ensures Ring(b, head, size)[0] == b[head]
    ensures Ring(b, At(head, 1, |b|), size - 1) == Ring(b, head, size)[1..]
  {
    AtWraps(head, 0, |b|);
    forall i | 0 <= i < size - 1 ensures At(At(head, 1, |b|), i, |b|) == At(head, i + 1, |b|) { AtSteps(head, i, |b|); }
    hide At;
  }

  /** A queue laid out from the front. */
  lemma RingFromFront(b: seq<Slot>, size: nat)
    requires 0 < |b| && size <= |b|
    ensures Ring(b, 0, size) == b[..size]
  {
    forall i | 0 <= i < size ensures At(0, i, |b|) == i { AtWraps(0, i, |b|); }
    hide At;
  }

  /** The pointers of queued slots. */
  function Pointers(q: seq<Slot>): (ps: seq<nat>)
    ensures |ps| == |q|
  {
    seq(|q|, (i: nat) requires i < |q| => q[i].ptr)
  }

  lemma PointersPut(q: seq<Slot>, x: Slot)
    ensures Pointers(q + [x]) == Pointers(q) + [x.ptr]
  {
  }

  lemma PointersTake(q: seq<Slot>)
    requires q != []
    ensures Pointers(q)[0] == q[0].ptr && Pointers(q[1..]) == Pointers(q)[1..]
  {
  }

  class Channel {
    var buf: array<Slot>
    var head: nat
    var size: nat
    const bounded: bool
    var closed: bool

    ghost predicate Valid()
      reads this, buf
    {
      buf.Length > 0 && head < buf.Length && size <= buf.Length
    }

    /** The queued slots, oldest first. */
    ghost function Items(): (s: seq<Slot>)
      requires Valid()
      reads this, buf
      ensures |s| == size
    {
      Ring(buf[..], head, size)
    }

    /** The channel as the account of references has it. */
    ghost function View(): Refs.Chan
      requires Valid()
      reads this, buf
    {
      Refs.Chan(Pointers(Items()), bounded, if bounded then buf.Length else 0, closed, false)
    }

    constructor (capacity: int)
      ensures Valid() && fresh(buf) && Items() == [] && !closed
      ensures bounded == (capacity > 0) && buf.Length == if capacity > 0 then capacity else 8
    {
      bounded := capacity > 0;
      var initial := if capacity > 0 then capacity else 8;
      buf := new Slot[initial](_ => Slot(0, 0));
      head, size, closed := 0, 0, false;
    }

    /** Twice the room, the queue moved to the front. */
    method Grow()
      requires Valid()
      modifies this`buf, this`head
      ensures Valid() && fresh(buf) && Items() == old(Items())
      ensures buf.Length == 2 * old(buf.Length) && head == 0
    {
      hide At;
      var nb := new Slot[2 * buf.Length](_ => Slot(0, 0));
      ghost var items := Items();
      var i := 0;
      while i < size
        invariant 0 <= i <= size && nb[..i] == items[..i]
        modifies nb
      {
        nb[i] := buf[At(head, i, buf.Length)];
        assert nb[i] == items[i];
        i := i + 1;
      }
      RingFromFront(nb[..], size);
      buf, head := nb, 0;
    }

    /** Queue a slot unless the channel is closed, bounded and full, or has to grow and cannot. */
    method Send(x: Slot, alloc: bool) returns (sent: bool)
      requires Valid()
      modifies this, buf
      ensures Valid() && (buf == old(buf) || fresh(buf)) && closed == old(closed)
      ensures sent <==> !closed && (old(size) < old(buf.Length) || (!bounded && alloc))
      ensures Items() == if sent then old(Items()) + [x] else old(Items())
      ensures bounded ==> buf.Length == old(buf.Length)
      ensures var was := old(View());
        && View() == (if sent then was.(items := was.items + [x.ptr]) else was)
        && (sent ==> !was.closed && !Refs.Full(was)) && (!sent ==> was.closed || Refs.Full(was) || !was.bounded)
    {
      if closed || (bounded && size >= buf.Length) { return false; }
      if !bounded && size == buf.Length {
        if !alloc { return false; }
        Grow();
      }
      PointersPut(Items(), x);
      Put(x);
      sent := true;
    }

    method Put(x: Slot)
      requires Valid() && size < buf.Length
      modifies this`size, buf
      ensures Valid() && Items() == old(Items()) + [x]
    {
      RingPut(buf[..], head, size, x);
      buf[At(head, size, buf.Length)] := x;
      size := size + 1;
    }

    /** Take the oldest slot, or report that there is none. */
    method Take() returns (x: Option<Slot>)
      requires Valid()
      modifies this
      ensures Valid() && buf == old(buf) && closed == old(closed)
      ensures if old(Items()) == [] then x == None && Items() == []
              else x == Some(old(Items())[0]) && Items() == old(Items())[1..]
      ensures var was := old(View());
        if was.items == [] then x == None && View() == was
        else x.Some? && x.value.ptr == was.items[0] && View() == was.(items := was.items[1..])
    {
      if size == 0 { return None; }
      PointersTake(Items());
      RingTake(buf[..], head, size);
      x := Some(buf[head]);
      head := At(head, 1, buf.Length);
      size := size - 1;
    }

    method Close()
      requires Valid()
      modifies this`closed
      ensures Valid() && closed && Items() == old(Items()) && View() == old(View()).(closed := true)
    {
      closed := true;
    }

    /** The references a channel still holds when it is freed, in the order they are released. */
    method Drain() returns (ptrs: seq<nat>)
      requires Valid()
      ensures ptrs == View().items
    {
      hide At;
      ptrs := [];
      var i := 0;
      while i < size
        invariant 0 <= i <= size && |ptrs| == i
        invariant forall j :: 0 <= j < i ==> ptrs[j] == Items()[j].ptr
      {
        ptrs := ptrs + [buf[At(head, i, buf.Length)].ptr];
        i := i + 1;
      }
    }
  }
}
