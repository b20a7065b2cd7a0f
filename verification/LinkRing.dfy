/**
 The link buffer's ring of slots, with nobody else at work: what adding a link and advancing the
 tail do to it, inside the window of a lap and outside.

 A link here goes from a position to the next one, the only links the snapshot tracker makes.
*/
module LinkRing {
  import opened Common

  // ----- Where advancing the tail lands -----

  function Highest(links: seq<nat>): (m: nat)
    ensures forall i :: 0 <= i < |links| ==> links[i] <= m
  {
    if links == [] then 0
    else
      var m := Highest(links[1..]);
      assert forall i :: 1 <= i < |links| ==> links[i] == links[1..][i - 1];
      if links[0] > m then links[0] else m
  }

  /** Follow links from `pos` until one does not lead forward. */
  function WalkEnd(links: seq<nat>, pos: nat): (end: nat)
    requires links != []
    ensures end >= pos
    decreases Highest(links) - pos
  {
    var next := links[SlotIndex(pos, |links|)];
    if next <= pos then pos else WalkEnd(links, next)
  }

  /** The tail after advance_tail by one thread alone, whatever is in the slots. */
  function Landing(links: seq<nat>, tail: nat): (end: nat)
    requires links != []
    ensures end >= tail
  {
    var i := SlotIndex(tail, |links|);
    if links[i] <= tail then tail else WalkEnd(links[i := tail], links[i])
  }

  /** The slots after advance_tail: the slot of the old tail is locked if the tail moves, nothing else changes. */
  function Passed(links: seq<nat>, tail: nat): seq<nat>
    requires links != []
  {
    var i := SlotIndex(tail, |links|);
    if links[i] <= tail then links else links[i := tail]
  }

  // ----- Rings kept inside the window -----

  /** Exactly the linked positions of the window show their link; every position below it was linked. */
  ghost predicate Ring(links: seq<nat>, tail: nat, linked: set<nat>) {
    && 2 <= |links|
    && (forall p :: 0 <= p < tail ==> p in linked)
    && (forall p :: p in linked ==> p < tail + |links|)
    && (forall p :: tail <= p < tail + |links| ==>
          if p in linked then links[SlotIndex(p, |links|)] == p + 1 else links[SlotIndex(p, |links|)] <= p)
  }

  /** The first position at or after `p` that has no link. */
  ghost predicate FirstHole(linked: set<nat>, p: nat, hole: nat) {
    p <= hole && hole !in linked && forall q :: p <= q < hole ==> q in linked
  }

  lemma {:induction false} HoleExists(linked: set<nat>, p: nat, bound: nat) returns (hole: nat)
    requires p <= bound && bound !in linked
    ensures FirstHole(linked, p, hole) && hole <= bound
    decreases bound - p
  {
    if p in linked { hole := HoleExists(linked, p + 1, bound); } else { hole := p; }
  }

  lemma OtherSlot(tail: nat, p: nat, cap: nat)
    requires cap >= 1 && tail < p < tail + cap
    ensures SlotIndex(p, cap) != SlotIndex(tail, cap)
  {
    if SlotIndex(p, cap) == SlotIndex(tail, cap) { SameIndex(tail, p, cap); }
  }

  lemma DistinctSlots(tail: nat, p: nat, q: nat, cap: nat)
    requires cap >= 1 && tail <= p < tail + cap && tail <= q < tail + cap && p != q
    ensures SlotIndex(p, cap) != SlotIndex(q, cap)
  {
    if p < q { OtherSlot(p, q, cap); } else { OtherSlot(q, p, cap); }
  }

  lemma WalkOne(links: seq<nat>, pos: nat)
    requires links != []
    ensures var next := links[SlotIndex(pos, |links|)];
            if next <= pos then WalkEnd(links, pos) == pos
            else WalkEnd(links, pos) == WalkEnd(links, next) && pos < next <= Highest(links)
  {
  }

  /** A walk passes every position that shows its own link. */
  lemma {:induction false} WalkOver(links: seq<nat>, pos: nat, end: nat)
    requires links != [] && pos <= end
    requires forall p :: pos <= p < end ==> links[SlotIndex(p, |links|)] == p + 1
    ensures WalkEnd(links, pos) == WalkEnd(links, end)
    decreases end - pos
  {
    hide SlotIndex;
    if pos < end { WalkOver(links, pos + 1, end); }
  }

  /** Advancing the tail of a ring kept inside the window lands on the first hole. */
  lemma RingLands(links: seq<nat>, tail: nat, linked: set<nat>, hole: nat)
    requires Ring(links, tail, linked) && FirstHole(linked, tail, hole)
    ensures Landing(links, tail) == hole <= tail + |links|
  {
    hide SlotIndex;
    assert tail + |links| !in linked;
    if hole > tail {
      var locked := Passed(links, tail);
      forall p | tail < p < hole ensures locked[SlotIndex(p, |links|)] == p + 1 { OtherSlot(tail, p, |links|); }
      WalkOver(locked, tail + 1, hole);
      if hole < tail + |links| { OtherSlot(tail, hole, |links|); } else { NextLap(tail, |links|); }
    }
  }

  lemma RingPassed(links: seq<nat>, tail: nat, linked: set<nat>, hole: nat)
    requires Ring(links, tail, linked) && FirstHole(linked, tail, hole)
    ensures Ring(Passed(links, tail), hole, linked)
  {
    hide SlotIndex;
    var after, cap := Passed(links, tail), |links|;
    assert tail + cap !in linked;
    forall p | hole <= p < hole + cap
      ensures if p in linked then after[SlotIndex(p, cap)] == p + 1 else after[SlotIndex(p, cap)] <= p
    {
      if p < tail + cap {
        if p > tail { OtherSlot(tail, p, cap); }
      } else {
        NextLap(p - cap, cap);
        if p - cap > tail { OtherSlot(tail, p - cap, cap); }
      }
    }
  }

  /** A new link keeps the ring exactly if it is less than a lap ahead of the tail. */
  lemma RingLinked(links: seq<nat>, tail: nat, linked: set<nat>, p: nat)
    requires Ring(links, tail, linked) && p !in linked
    ensures Ring(links[SlotIndex(p, |links|) := p + 1], tail, linked + {p}) <==> p < tail + |links|
  {
    hide SlotIndex;
    var after := links[SlotIndex(p, |links|) := p + 1];
    assert p in linked + {p};
    if p < tail + |links| {
      forall q | tail <= q < tail + |links| && q != p
        ensures SlotIndex(q, |links|) != SlotIndex(p, |links|)
      {
        DistinctSlots(tail, p, q, |links|);
      }
    }
  }

  // ----- A link a lap or more ahead -----

  /** The position of the window that shares the slot of `p`. */
  ghost predicate SharesSlot(tail: nat, cap: nat, p: nat, q: nat)
    requires cap > 0
  {
    tail <= q < tail + cap && SlotIndex(q, cap) == SlotIndex(p, cap)
  }

  lemma {:induction false} SharedSlotExists(tail: nat, cap: nat, p: nat) returns (q: nat)
    requires cap > 0 && p >= tail
    ensures SharesSlot(tail, cap, p, q)
    decreases p
  {
    if p < tail + cap { q := p; } else { NextLap(p - cap, cap); q := SharedSlotExists(tail, cap, p - cap); }
  }

  /** No slot leads on from just past a link that is a lap or more ahead. */
  lemma WalkStopsPast(links: seq<nat>, tail: nat, linked: set<nat>, p: nat, i: nat, x: nat)
    requires Ring(links, tail, linked) && p >= tail + |links| && i < |links| && x <= p + 1
    ensures WalkEnd(links[SlotIndex(p, |links|) := p + 1][i := x], p + 1) == p + 1
  {
    hide SlotIndex;
    var j := SlotIndex(p + 1, |links|);
    var q := SharedSlotExists(tail, |links|, p + 1);
    assert links[j] <= tail + |links|;
  }

  /**
   Adding a link at `p`, a lap or more ahead: the next advance stops at the first hole if `p`
   overwrote a slot behind it, and jumps to just past `p` otherwise. That is right exactly
   in the first case, or if the window was full and `p` the very next position.
  */
  lemma LapLanding(links: seq<nat>, tail: nat, linked: set<nat>, p: nat, q: nat, hole: nat, hole': nat)
    requires Ring(links, tail, linked) && p >= tail + |links| && SharesSlot(tail, |links|, p, q)
    requires FirstHole(linked, tail, hole) && FirstHole(linked + {p}, tail, hole')
    ensures Landing(links[SlotIndex(p, |links|) := p + 1], tail) == if q > hole then hole else p + 1
    ensures Landing(links[SlotIndex(p, |links|) := p + 1], tail) == hole'
            <==> q > hole || (p == tail + |links| && hole == tail + |links|)
  {
    hide SlotIndex, WalkEnd;
    assert tail + |links| !in linked;
    assert hole <= tail + |links|;
    assert hole' == if p == hole then p + 1 else hole by { NextHole(linked, tail, p, hole, hole'); }
    if q > hole { LandsBehind(links, tail, linked, p, q, hole); } else { LandsPast(links, tail, linked, p, q, hole); }
    if p == hole { NextLap(tail, |links|); }
  }

  lemma NextHole(linked: set<nat>, tail: nat, p: nat, hole: nat, hole': nat)
    requires FirstHole(linked, tail, hole) && FirstHole(linked + {p}, tail, hole')
    requires p >= tail && hole <= p && forall x :: x in linked ==> x < p
    ensures hole' == if p == hole then p + 1 else hole
  {
    assert p == hole ==> p + 1 !in linked + {p};
  }

  lemma LandsBehind(links: seq<nat>, tail: nat, linked: set<nat>, p: nat, q: nat, hole: nat)
    requires Ring(links, tail, linked) && p >= tail + |links| && SharesSlot(tail, |links|, p, q)
    requires FirstHole(linked, tail, hole) && hole < q
    ensures Landing(links[SlotIndex(p, |links|) := p + 1], tail) == hole
  {
    hide SlotIndex;
    var after := links[SlotIndex(p, |links|) := p + 1];
    forall x | tail <= x <= hole ensures after[SlotIndex(x, |links|)] == links[SlotIndex(x, |links|)] {
      DistinctSlots(tail, x, q, |links|);
    }
    if hole > tail {
      var locked := Passed(after, tail);
      forall x | tail < x <= hole ensures locked[SlotIndex(x, |links|)] == links[SlotIndex(x, |links|)] {
        OtherSlot(tail, x, |links|);
      }
      WalkOver(locked, tail + 1, hole);
    }
  }

  lemma LandsPast(links: seq<nat>, tail: nat, linked: set<nat>, p: nat, q: nat, hole: nat)
    requires Ring(links, tail, linked) && p >= tail + |links| && SharesSlot(tail, |links|, p, q)
    requires FirstHole(linked, tail, hole) && q <= hole
    ensures Landing(links[SlotIndex(p, |links|) := p + 1], tail) == p + 1
  {
    hide SlotIndex, WalkEnd;
    var after := links[SlotIndex(p, |links|) := p + 1];
    var i := SlotIndex(tail, |links|);
    var locked := after[i := tail];
    WalkStopsPast(links, tail, linked, p, i, tail);
    if q > tail {
      WalksToShared(links, tail, linked, p, q);
      WalkOver(locked, tail + 1, q);
      WalkOne(locked, q);
    }
  }

  /** Up to the overwritten slot every position shows its own link. */
  lemma WalksToShared(links: seq<nat>, tail: nat, linked: set<nat>, p: nat, q: nat)
    requires Ring(links, tail, linked) && p >= tail + |links| && SharesSlot(tail, |links|, p, q) && tail < q
    requires forall x :: tail <= x < q ==> x in linked
    ensures var after := links[SlotIndex(p, |links|) := p + 1];
            var locked := after[SlotIndex(tail, |links|) := tail];
            && after[SlotIndex(tail, |links|)] == tail + 1
            && (forall x :: tail < x < q ==> locked[SlotIndex(x, |links|)] == x + 1)
            && locked[SlotIndex(q, |links|)] == p + 1
  {
    hide SlotIndex;
    OtherSlot(tail, q, |links|);
    var after := links[SlotIndex(p, |links|) := p + 1];
    var locked := after[SlotIndex(tail, |links|) := tail];
    forall x | tail < x < q ensures locked[SlotIndex(x, |links|)] == x + 1 {
      OtherSlot(tail, x, |links|);
      DistinctSlots(tail, x, q, |links|);
    }
  }

  // ----- The buffer, used by one thread at a time -----

  class LinkBuffer {
    const cap: nat
    const links: array<nat>
    var tail: nat
    ghost var linked: set<nat>

    ghost predicate Shape()
      reads this
    {
      2 <= cap == links.Length
    }

    /** Every link was added less than a lap ahead of the tail. */
    ghost predicate Valid()
      reads this, links
    {
      Shape() && Ring(links[..], tail, linked)
    }

    constructor (capacity: nat)
      requires 2 <= capacity
      ensures Valid() && fresh(links) && tail == 0 && linked == {} && cap == capacity
    {
      cap := capacity;
      links := new nat[capacity](i => 0);
      tail := 0;
      linked := {};
    }

    /** add_link(p, p + 1): it stores, whether there is space or not. */
    method AddLink(p: nat)
      requires Shape()
      modifies this`linked, links
      ensures linked == old(linked) + {p} && links[..] == old(links[..])[SlotIndex(p, cap) := p + 1]
      ensures old(Valid()) && p !in old(linked) ==> (Valid() <==> p < tail + cap)
    {
      hide SlotIndex, Ring;
      if Valid() && p !in linked { RingLinked(links[..], tail, linked, p); }
      links[SlotIndex(p, cap)] := p + 1;
      linked := linked + {p};
      assert links[..] == old(links[..])[SlotIndex(p, cap) := p + 1];
    }

    /** advance_tail, on any slots; inside the window the tail moves to the first hole. */
    method AdvanceTail() returns (advanced: bool)
      requires Shape()
      modifies this`tail, links
      ensures tail == Landing(old(links[..]), old(tail)) && links[..] == Passed(old(links[..]), old(tail))
      ensures advanced == (tail != old(tail))
      ensures old(Valid()) ==> Valid() && FirstHole(linked, old(tail), tail)
    {
      hide SlotIndex, Ring, WalkEnd;
      if Valid() { RingAdvances(links[..], tail, linked); }
      var position := tail;
      var next := links[SlotIndex(position, cap)];
      if next <= position {
        return false;
      }
      links[SlotIndex(position, cap)] := position;
      ghost var locked := links[..];
      assert locked == Passed(old(links[..]), tail);
      position := next;
      while true
        invariant links[..] == locked && tail == old(tail) < position
        invariant WalkEnd(locked, position) == WalkEnd(locked, next)
        decreases Highest(locked) - position
      {
        var following := links[SlotIndex(position, cap)];
        WalkOne(locked, position);
        assert following == locked[SlotIndex(position, cap)];
        if following <= position {
          break;
        }
        position := following;
      }
      tail := position;
      return true;
    }
  }

  lemma RingAdvances(links: seq<nat>, tail: nat, linked: set<nat>)
    requires Ring(links, tail, linked)
    ensures Ring(Passed(links, tail), Landing(links, tail), linked) && FirstHole(linked, tail, Landing(links, tail))
  {
    var hole := HoleExists(linked, tail, tail + |links|);
    RingLands(links, tail, linked, hole);
    RingPassed(links, tail, linked, hole);
  }
}
