/**
 The lock-free link buffer, as a step machine over its atomic loads, stores and
 compare-and-swaps.

 A link here goes from a position to the next one, the only links the snapshot
 tracker makes. A slot's ghost shape says where its raw value came from; the
 steps only ever look at the raw value.
*/
module LinkBuf {
  import opened Common
  import opened LinkRing

  datatype Slot =
    | Empty
    | Linked(x: nat)     // add_link(x, x + 1) stored x + 1
    | Locked(x: nat)     // a thread swapped the link of x for x itself
  {
    function Raw(): nat {
      match this
      case Empty => 0
      case Linked(x) => x + 1
      case Locked(x) => x
    }
  }

  /** Where a thread is in advance_tail_until. */
  datatype Pc =
    | Idle
    | Loaded(tail: nat)                  // tail read; its slot comes next
    | Ahead(tail: nat, next: nat)        // the slot is a lap ahead; re-read the tail
    | Ready(tail: nat, next: nat)        // about to compare-and-swap
    | Won(tail: nat, next: nat)          // swapped; re-read the tail
    | Lost(tail: nat)                    // not swapped, or the tail moved; retry
    | Walking(tail: nat, pos: nat)       // following links, alone
    | Storing(tail: nat, pos: nat)       // about to check and move the tail

  datatype Thread = Thread(pc: Pc, retry: nat, maxRetry: nat)

  datatype State = State(
    cap: nat,
    slots: seq<Slot>,
    tail: nat,
    threads: map<nat, Thread>,
    linked: set<nat>,      // every position ever linked
    tails: set<nat>)       // every value the tail has had

  ghost predicate Shape(s: State) {
    2 <= s.cap == |s.slots|
  }

  function At(s: State, p: nat): Slot
    requires Shape(s)
  {
    s.slots[SlotIndex(p, s.cap)]
  }

  ghost predicate Init(s: State) {
    && Shape(s) && s.tail == 0 && s.linked == {} && s.tails == {0}
    && (forall i :: 0 <= i < s.cap ==> s.slots[i] == Empty)
    && (forall i :: i in s.threads ==> s.threads[i].pc == Idle)
  }

  function To(s: State, i: nat, pc: Pc): State
    requires i in s.threads
  {
    s.(threads := s.threads[i := s.threads[i].(pc := pc)])
  }

  datatype Step =
    | AddLink(p: nat)
    | Start(i: nat, maxRetry: nat)
    | LoadSlot(i: nat)
    | ReloadTail(i: nat)
    | Swap(i: nat)
    | Confirm(i: nat)
    | Retry(i: nat)
    | Walk(i: nat)
    | StoreTail(i: nat)

  /** The window: a link may be added only less than a lap ahead of the tail, and only once. */
  predicate HasSpace(s: State, p: nat) {
    p < s.tail + s.cap && p !in s.linked
  }

  predicate Enabled(s: State, step: Step) {
    match step
    case AddLink(p) => HasSpace(s, p)
    case Start(i, _) => i in s.threads && s.threads[i].pc.Idle?
    case LoadSlot(i) => i in s.threads && s.threads[i].pc.Loaded?
    case ReloadTail(i) => i in s.threads && s.threads[i].pc.Ahead?
    case Swap(i) => i in s.threads && s.threads[i].pc.Ready?
    case Confirm(i) => i in s.threads && s.threads[i].pc.Won?
    case Retry(i) => i in s.threads && s.threads[i].pc.Lost?
    case Walk(i) => i in s.threads && s.threads[i].pc.Walking?
    case StoreTail(i) => i in s.threads && s.threads[i].pc.Storing?
  }

  /** What a thread does with the value it found in the slot of its tail. */
  function Examine(s: State, tail: nat, next: nat): Pc {
    if next <= tail then Idle else Ready(tail, next)
  }

  function Apply(s: State, step: Step): State
    requires Shape(s) && Enabled(s, step)
  {
    match step
    case AddLink(p) =>
      s.(slots := s.slots[SlotIndex(p, s.cap) := Linked(p)], linked := s.linked + {p})
    case Start(i, maxRetry) =>
      s.(threads := s.threads[i := Thread(Loaded(s.tail), 0, maxRetry)])
    case LoadSlot(i) =>
      var tail := s.threads[i].pc.tail;
      var next := At(s, tail).Raw();
      To(s, i, if next >= tail + s.cap then Ahead(tail, next) else Examine(s, tail, next))
    case ReloadTail(i) =>
      var pc := s.threads[i].pc;
      To(s, i, if s.tail != pc.tail then Loaded(s.tail) else Examine(s, pc.tail, pc.next))
    case Swap(i) =>
      var pc := s.threads[i].pc;
      if At(s, pc.tail).Raw() == pc.next then
        To(s, i, Won(pc.tail, pc.next)).(slots := s.slots[SlotIndex(pc.tail, s.cap) := Locked(pc.tail)])
      else To(s, i, Lost(pc.tail))
    case Confirm(i) =>
      var pc := s.threads[i].pc;
      To(s, i, if s.tail == pc.tail then Walking(pc.tail, pc.next) else Lost(pc.tail))
    case Retry(i) =>
      var t := s.threads[i];
      if t.retry + 1 > t.maxRetry || s.tail == t.pc.tail then To(s, i, Idle)
      else s.(threads := s.threads[i := Thread(Loaded(s.tail), t.retry + 1, t.maxRetry)])
    case Walk(i) =>
      var pc := s.threads[i].pc;
      var next := At(s, pc.pos).Raw();
      To(s, i, if next <= pc.pos then Storing(pc.tail, pc.pos) else Walking(pc.tail, next))
    case StoreTail(i) =>
      var pos := s.threads[i].pc.pos;
      To(s, i, Idle).(tail := pos, tails := s.tails + {pos})
  }

  // ----- The invariant -----

  ghost predicate SlotOk(s: State, i: nat)
    requires Shape(s) && i < s.cap
  {
    match s.slots[i]
    case Empty => true
    case Linked(x) => SlotIndex(x, s.cap) == i && x in s.linked && x < s.tail + s.cap
    case Locked(x) => SlotIndex(x, s.cap) == i && x in s.linked && x <= s.tail
  }

  ghost predicate Slots(s: State) {
    && Shape(s)
    && (forall i :: 0 <= i < s.cap ==> SlotOk(s, i))
  }

  /** Everything below the tail has been linked; a position the tail has left is not linked in its slot any more. */
  ghost predicate History(s: State) {
    && Shape(s)
    && s.tail in s.tails
    && (forall p :: 0 <= p < s.tail ==> p in s.linked)
    && (forall f :: f in s.tails ==> f <= s.tail && (f < s.tail ==> At(s, f) != Linked(f)))
  }

  /** Holding the lock of the tail's slot. */
  predicate Holder(pc: Pc) {
    pc.Won? || pc.Walking? || pc.Storing?
  }

  ghost predicate ThreadOk(s: State, pc: Pc)
    requires Shape(s)
  {
    && (!pc.Idle? ==> pc.tail in s.tails)
    && (pc.Ahead? ==> pc.tail < s.tail)
    && (pc.Ready? ==> pc.tail < pc.next < pc.tail + s.cap)
    && (Holder(pc) ==> pc.tail == s.tail && At(s, s.tail) == Locked(s.tail) && s.tail in s.linked)
    && (pc.Won? ==> pc.next == pc.tail + 1)
    && (pc.Walking? || pc.Storing? ==>
          pc.tail < pc.pos <= s.tail + s.cap && forall p :: pc.tail <= p < pc.pos ==> p in s.linked)
  }

  ghost predicate Threads(s: State) {
    && Shape(s)
    && (forall i :: i in s.threads ==> ThreadOk(s, s.threads[i].pc))
    && (forall i, j :: i in s.threads && j in s.threads && Holder(s.threads[i].pc) && Holder(s.threads[j].pc) ==>
          i == j)
  }

  /** Some thread holds the lock of the tail's slot. */
  ghost predicate Held(s: State) {
    exists i :: i in s.threads && Holder(s.threads[i].pc)
  }

  /** A link from the tail on is still in its slot, unless it is the tail's own and a thread holds it. */
  ghost predicate LinkShows(s: State, p: nat)
    requires Shape(s)
  {
    At(s, p) == Linked(p) || (p == s.tail && At(s, p) == Locked(p) && Held(s))
  }

  ghost predicate Filled(s: State) {
    && Shape(s)
    && (forall p :: p in s.linked ==> p < s.tail + s.cap)
    && (forall p :: p in s.linked && s.tail <= p ==> LinkShows(s, p))
  }

  ghost predicate Inv(s: State) {
    Slots(s) && History(s) && Threads(s) && Filled(s)
  }

  // ----- Arithmetic of the ring -----

  /** A slot value strictly between a position and a lap ahead of it is the position's own link. */
  lemma OwnLink(s: State, p: nat)
    requires Slots(s) && p < At(s, p).Raw() < p + s.cap
    ensures At(s, p) == Linked(p)
  {
    var slot := At(s, p);
    assert SlotOk(s, SlotIndex(p, s.cap));
    SameIndex(p, if slot.Linked? then slot.x else slot.Raw(), s.cap);
  }

  // ----- Every step keeps it -----

  lemma AddLinkFills(s: State, p: nat)
    requires Inv(s) && HasSpace(s, p)
    ensures Filled(Apply(s, AddLink(p)))
  {
    hide Slots, Threads, Holder;
    var s' := Apply(s, AddLink(p));
    assert p >= s.tail;
    if Held(s) {
      var i :| i in s.threads && Holder(s.threads[i].pc);
      assert i in s'.threads && Holder(s'.threads[i].pc);
    }
    forall q | q in s'.linked && s'.tail <= q ensures LinkShows(s', q) {
      if q != p {
        assert LinkShows(s, q);
        DistinctSlots(s.tail, p, q, s.cap);
      }
    }
  }

  lemma AddLinkKeeps(s: State, p: nat)
    requires Inv(s) && HasSpace(s, p)
    ensures Inv(Apply(s, AddLink(p)))
  {
    AddLinkFills(s, p);
    hide Filled, Held;
    var s' := Apply(s, AddLink(p));
    assert p >= s.tail;
    forall i | 0 <= i < s'.cap ensures SlotOk(s', i) { assert SlotOk(s, i); }
    forall f | f in s'.tails && f < s'.tail ensures At(s', f) != Linked(f) { assert At(s, f) != Linked(f); }
    forall i | i in s'.threads ensures ThreadOk(s', s'.threads[i].pc) {
      assert ThreadOk(s, s.threads[i].pc);
      if Holder(s.threads[i].pc) && SlotIndex(p, s.cap) == SlotIndex(s.tail, s.cap) {
        SameIndex(s.tail, p, s.cap);
        assert false;
      }
    }
  }

  /** A step that only moves thread `i`, which neither gets nor gives up the lock. */
  lemma MoveKeeps(s: State, i: nat, t: Thread)
    requires Inv(s) && i in s.threads && ThreadOk(s, t.pc)
    requires Holder(t.pc) == Holder(s.threads[i].pc)
    ensures Inv(s.(threads := s.threads[i := t]))
  {
    MoveFills(s, i, t);
    hide Filled, Held;
    var s' := s.(threads := s.threads[i := t]);
    forall j | 0 <= j < s'.cap ensures SlotOk(s', j) { assert SlotOk(s, j); }
    forall f | f in s'.tails && f < s'.tail ensures At(s', f) != Linked(f) { assert At(s, f) != Linked(f); }
    forall j | j in s'.threads ensures ThreadOk(s', s'.threads[j].pc) {
      assert j != i ==> ThreadOk(s, s.threads[j].pc);
    }
  }

  lemma MoveFills(s: State, i: nat, t: Thread)
    requires Filled(s) && i in s.threads && Holder(t.pc) == Holder(s.threads[i].pc)
    ensures Filled(s.(threads := s.threads[i := t]))
  {
    hide Holder;
    var s' := s.(threads := s.threads[i := t]);
    if Held(s) {
      var j :| j in s.threads && Holder(s.threads[j].pc);
      assert j in s'.threads && Holder(s'.threads[j].pc);
    }
    forall q | q in s'.linked && s'.tail <= q ensures LinkShows(s', q) { assert LinkShows(s, q); }
  }

  lemma LoadSlotKeeps(s: State, i: nat)
    requires Inv(s) && Enabled(s, LoadSlot(i))
    ensures Inv(Apply(s, LoadSlot(i)))
  {
    var s' := Apply(s, LoadSlot(i));
    var tail := s.threads[i].pc.tail;
    assert ThreadOk(s, s.threads[i].pc) && SlotOk(s, SlotIndex(tail, s.cap));
    if At(s, tail).Raw() >= tail + s.cap {
      LapAhead(s, tail);
    }
    MoveKeeps(s, i, s'.threads[i]);
  }

  /** A slot that is a lap ahead of a position shows that the tail has passed the position. */
  lemma LapAhead(s: State, p: nat)
    requires Slots(s) && At(s, p).Raw() >= p + s.cap
    ensures p < s.tail
  {
    assert SlotOk(s, SlotIndex(p, s.cap));
    var slot := At(s, p);
    if slot.Linked? && slot.x == p + s.cap - 1 {
      SameIndex(p, slot.x, s.cap);
      assert false;
    }
  }

  /** A successful swap finds the thread's tail still the tail, and its slot linked and unlocked. */
  lemma SwapWins(s: State, i: nat)
    requires Inv(s) && Enabled(s, Swap(i)) && At(s, s.threads[i].pc.tail).Raw() == s.threads[i].pc.next
    ensures var pc := s.threads[i].pc;
            pc.tail == s.tail && At(s, s.tail) == Linked(s.tail) && s.tail in s.linked && pc.next == s.tail + 1
    ensures forall j :: j in s.threads ==> !Holder(s.threads[j].pc)
  {
    var pc := s.threads[i].pc;
    assert ThreadOk(s, pc);
    OwnLink(s, pc.tail);
    assert SlotOk(s, SlotIndex(pc.tail, s.cap));
    forall j | j in s.threads ensures !Holder(s.threads[j].pc) { assert ThreadOk(s, s.threads[j].pc); }
  }

  lemma SwapKeeps(s: State, i: nat)
    requires Inv(s) && Enabled(s, Swap(i))
    ensures Inv(Apply(s, Swap(i)))
  {
    var s', pc := Apply(s, Swap(i)), s.threads[i].pc;
    assert ThreadOk(s, pc);
    if At(s, pc.tail).Raw() == pc.next {
      SwapWins(s, i);
      SwapFills(s, i);
      hide Filled, Held;
      forall j | 0 <= j < s'.cap ensures SlotOk(s', j) { assert SlotOk(s, j); }
      forall f | f in s'.tails && f < s'.tail ensures At(s', f) != Linked(f) { assert At(s, f) != Linked(f); }
      forall j | j in s'.threads ensures ThreadOk(s', s'.threads[j].pc) { assert ThreadOk(s, s.threads[j].pc); }
    } else {
      MoveKeeps(s, i, s'.threads[i]);
    }
  }

  lemma SwapFills(s: State, i: nat)
    requires Filled(s) && Enabled(s, Swap(i)) && s.threads[i].pc.tail == s.tail
    requires At(s, s.tail).Raw() == s.threads[i].pc.next
    ensures Filled(Apply(s, Swap(i)))
  {
    var s' := Apply(s, Swap(i));
    assert i in s'.threads && Holder(s'.threads[i].pc);
    forall q | q in s'.linked && s'.tail <= q ensures LinkShows(s', q) {
      assert LinkShows(s, q);
      if q != s.tail { OtherSlot(s.tail, q, s.cap); }
    }
  }

  /** Walking follows a link only from a linked position, by one. */
  lemma WalkFollowsLink(s: State, i: nat)
    requires Inv(s) && Enabled(s, Walk(i)) && At(s, s.threads[i].pc.pos).Raw() > s.threads[i].pc.pos
    ensures var pos := s.threads[i].pc.pos;
            At(s, pos) == Linked(pos) && pos in s.linked && pos < s.tail + s.cap
  {
    var pc := s.threads[i].pc;
    var slot := At(s, pc.pos);
    assert ThreadOk(s, pc) && SlotOk(s, SlotIndex(pc.pos, s.cap));
    if slot.Linked? {
      SameIndex(pc.pos, slot.x, s.cap);
    }
  }

  lemma WalkKeeps(s: State, i: nat)
    requires Inv(s) && Enabled(s, Walk(i))
    ensures Inv(Apply(s, Walk(i)))
  {
    var s', pc := Apply(s, Walk(i)), s.threads[i].pc;
    assert ThreadOk(s, pc);
    if At(s, pc.pos).Raw() > pc.pos {
      WalkFollowsLink(s, i);
    }
    MoveKeeps(s, i, s'.threads[i]);
  }

  lemma StoreTailKeeps(s: State, i: nat)
    requires Inv(s) && Enabled(s, StoreTail(i))
    ensures Inv(Apply(s, StoreTail(i)))
  {
    var s', pc := Apply(s, StoreTail(i)), s.threads[i].pc;
    assert ThreadOk(s, pc);
    assert Filled(s') by {
      forall q | q in s'.linked && s'.tail <= q ensures LinkShows(s', q) { assert LinkShows(s, q); }
    }
    hide Filled, Held;
    forall j | 0 <= j < s'.cap ensures SlotOk(s', j) { assert SlotOk(s, j); }
    forall f | f in s'.tails && f < s'.tail ensures At(s', f) != Linked(f) { assert f != pc.pos; }
    forall j | j in s'.threads ensures ThreadOk(s', s'.threads[j].pc) { assert ThreadOk(s, s.threads[j].pc); }
  }

  lemma StepKeeps(s: State, step: Step)
    requires Inv(s) && Enabled(s, step)
    ensures Inv(Apply(s, step))
  {
    match step
    case AddLink(p) => AddLinkKeeps(s, p);
    case LoadSlot(i) => LoadSlotKeeps(s, i);
    case Swap(i) => SwapKeeps(s, i);
    case Walk(i) => WalkKeeps(s, i);
    case StoreTail(i) => StoreTailKeeps(s, i);
    case Start(i, _) => MoveKeeps(s, i, Apply(s, step).threads[i]);
    case ReloadTail(i) => assert ThreadOk(s, s.threads[i].pc); MoveKeeps(s, i, Apply(s, step).threads[i]);
    case Confirm(i) => assert ThreadOk(s, s.threads[i].pc); MoveKeeps(s, i, Apply(s, step).threads[i]);
    case Retry(i) => assert ThreadOk(s, s.threads[i].pc); MoveKeeps(s, i, Apply(s, step).threads[i]);
  }

  // ----- Every run -----

  ghost predicate IsRun(states: seq<State>, steps: seq<Step>) {
    && |states| == |steps| + 1
    && Init(states[0])
    && forall i :: 0 <= i < |steps| ==>
                     Shape(states[i]) && Enabled(states[i], steps[i]) && states[i + 1] == Apply(states[i], steps[i])
  }

  lemma {:induction false} RunHolds(states: seq<State>, steps: seq<Step>, n: nat)
    requires IsRun(states, steps) && n < |states|
    ensures Inv(states[n])
  {
    if n > 0 {
      RunHolds(states, steps, n - 1);
      StepKeeps(states[n - 1], steps[n - 1]);
    }
  }

  lemma {:induction false} TailMonotone(states: seq<State>, steps: seq<Step>, m: nat, n: nat)
    requires IsRun(states, steps) && m <= n < |states|
    ensures states[m].tail <= states[n].tail
    decreases n - m
  {
    if m < n {
      RunHolds(states, steps, m);
      if steps[m].StoreTail? {
        assert ThreadOk(states[m], states[m].threads[steps[m].i].pc);
      }
      TailMonotone(states, steps, m + 1, n);
    }
  }

  /**
   In every reachable state: every position below the tail has been linked, at most one
   thread is past the swap, its CHECK on the tail holds, and every position it is about to
   move the tail over has been linked.
  */
  lemma TailSafety(states: seq<State>, steps: seq<Step>, n: nat)
    requires IsRun(states, steps) && n < |states|
    ensures forall p :: 0 <= p < states[n].tail ==> p in states[n].linked
    ensures forall i, j | i in states[n].threads && j in states[n].threads ::
              Holder(states[n].threads[i].pc) && Holder(states[n].threads[j].pc) ==> i == j
    ensures forall i :: i in states[n].threads && states[n].threads[i].pc.Storing? ==>
              var pc := states[n].threads[i].pc;
              && pc.tail == states[n].tail < pc.pos
              && forall p :: states[n].tail <= p < pc.pos ==> p in states[n].linked
  {
    RunHolds(states, steps, n);
    forall i | i in states[n].threads && states[n].threads[i].pc.Storing?
      ensures var pc := states[n].threads[i].pc;
              && pc.tail == states[n].tail < pc.pos
              && forall p :: states[n].tail <= p < pc.pos ==> p in states[n].linked
    {
      assert ThreadOk(states[n], states[n].threads[i].pc);
    }
  }

  // ----- Giving up -----

  /** About to swap, a thread has seen the tail's own link; having lost, the tail moved on or somebody holds it. */
  ghost predicate Rival(s: State, pc: Pc) {
    && (pc.Ready? ==> pc.next == pc.tail + 1 && pc.tail in s.linked)
    && (pc.Lost? ==> pc.tail < s.tail || Held(s))
  }

  ghost predicate Rivals(s: State) {
    forall i :: i in s.threads ==> Rival(s, s.threads[i].pc)
  }

  /** Only storing the tail gives up the lock. */
  lemma HeldStays(s: State, step: Step)
    requires Inv(s) && Enabled(s, step) && !step.StoreTail? && Held(s)
    ensures Held(Apply(s, step))
  {
    var i :| i in s.threads && Holder(s.threads[i].pc);
    assert ThreadOk(s, s.threads[i].pc);
    var s' := Apply(s, step);
    hide Slots, History, Filled, Inv, At;
    assert i in s'.threads && Holder(s'.threads[i].pc);
  }

  lemma LoadSlotRival(s: State, i: nat)
    requires Inv(s) && Enabled(s, LoadSlot(i))
    ensures Rival(Apply(s, LoadSlot(i)), Apply(s, LoadSlot(i)).threads[i].pc)
  {
    var tail := s.threads[i].pc.tail;
    if tail < At(s, tail).Raw() < tail + s.cap {
      OwnLink(s, tail);
      assert SlotOk(s, SlotIndex(tail, s.cap));
    }
  }

  lemma SwapRival(s: State, i: nat)
    requires Inv(s) && Rivals(s) && Enabled(s, Swap(i))
    ensures Rival(Apply(s, Swap(i)), Apply(s, Swap(i)).threads[i].pc)
  {
    var pc, s' := s.threads[i].pc, Apply(s, Swap(i));
    assert Rival(s, pc) && ThreadOk(s, pc);
    if At(s, pc.tail).Raw() != pc.next && pc.tail == s.tail {
      assert LinkShows(s, s.tail);
      HeldStays(s, Swap(i));
    }
  }

  lemma RivalsKept(s: State, step: Step)
    requires Inv(s) && Rivals(s) && Enabled(s, step)
    ensures Rivals(Apply(s, step))
  {
    var s' := Apply(s, step);
    if step.StoreTail? {
      assert ThreadOk(s, s.threads[step.i].pc);
    } else if Held(s) {
      HeldStays(s, step);
    }
    if step.LoadSlot? { LoadSlotRival(s, step.i); }
    if step.Swap? { SwapRival(s, step.i); }
    hide Slots, Filled, Held, At, SlotIndex;
    forall i | i in s'.threads ensures Rival(s', s'.threads[i].pc) {
      assert Rival(s, s.threads[i].pc) && ThreadOk(s, s.threads[i].pc);
    }
  }

  lemma {:induction false} RunRivals(states: seq<State>, steps: seq<Step>, n: nat)
    requires IsRun(states, steps) && n < |states|
    ensures Rivals(states[n])
  {
    if n > 0 {
      hide Inv, Apply, Enabled, Rivals;
      RunRivals(states, steps, n - 1);
      RunHolds(states, steps, n - 1);
      RivalsKept(states[n - 1], steps[n - 1]);
    }
  }

  /**
   A thread that comes back without having moved the tail had a reason: the tail has no link, or another
   thread holds it and is moving it, or the thread has used up its retries, or the slot it
   looked at belongs to a tail that somebody has moved on since.
  */
  lemma GivesUpWithReason(states: seq<State>, steps: seq<Step>, n: nat, i: nat)
    requires IsRun(states, steps) && n < |steps| && By(i, steps[n]) && !steps[n].StoreTail?
    requires i in states[n + 1].threads && states[n + 1].threads[i].pc.Idle?
    ensures var s := states[n];
            && i in s.threads && !s.threads[i].pc.Idle? && !Holder(s.threads[i].pc)
            && (|| s.tail !in s.linked || (steps[n].LoadSlot? && s.threads[i].pc.tail < s.tail)
                || (exists j :: j != i && j in s.threads && Holder(s.threads[j].pc))
                || (steps[n].Retry? && s.threads[i].retry == s.threads[i].maxRetry))
  {
    var s := states[n];
    RunHolds(states, steps, n);
    RunRivals(states, steps, n);
    RunRetries(states, steps, n);
    assert ThreadOk(s, s.threads[i].pc) && Rival(s, s.threads[i].pc);
    if steps[n].LoadSlot? && s.threads[i].pc.tail == s.tail && s.tail in s.linked {
      assert LinkShows(s, s.tail);
    }
    if Held(s) {
      var j :| j in s.threads && Holder(s.threads[j].pc);
      assert j != i;
    }
  }

  ghost predicate Retries(s: State) {
    forall i :: i in s.threads && !s.threads[i].pc.Idle? ==> s.threads[i].retry <= s.threads[i].maxRetry
  }

  lemma RetriesKept(s: State, step: Step)
    requires Shape(s) && Retries(s) && Enabled(s, step)
    ensures Retries(Apply(s, step))
  {
    hide SlotIndex, At;
    var s' := Apply(s, step);
    if !step.AddLink? {
      assert s'.threads == s.threads[step.i := s'.threads[step.i]];
    }
  }

  lemma {:induction false} RunRetries(states: seq<State>, steps: seq<Step>, n: nat)
    requires IsRun(states, steps) && n < |states|
    ensures Retries(states[n])
  {
    if n > 0 {
      RunRetries(states, steps, n - 1);
      RetriesKept(states[n - 1], steps[n - 1]);
    }
  }

  /** Take the steps in order, if each is enabled. */
  function TakeAll(s: State, steps: seq<Step>): Option<State>
    decreases |steps|
  {
    if steps == [] then Some(s)
    else if |s.slots| == s.cap >= 2 && Enabled(s, steps[0]) then TakeAll(Apply(s, steps[0]), steps[1..])
    else None
  }

  lemma TakeOne(s: State, step: Step, rest: seq<Step>)
    requires Shape(s) && Enabled(s, step)
    ensures TakeAll(s, [step] + rest) == TakeAll(Apply(s, step), rest)
  {
    assert ([step] + rest)[1..] == rest;
  }

  lemma TakeNone(s: State)
    ensures TakeAll(s, []) == Some(s)
  {
  }

  lemma {:induction false} TakeAllConcat(s: State, a: seq<Step>, b: seq<Step>)
    requires TakeAll(s, a).Some?
    ensures TakeAll(s, a + b) == TakeAll(TakeAll(s, a).value, b)
    decreases |a|
  {
    hide Apply, Enabled;
    if a == [] {
      assert a + b == b;
    } else {
      TakeAllConcat(Apply(s, a[0]), a[1..], b);
      assert (a + b)[1..] == a[1..] + b;
    }
  }

  lemma {:induction false} TakeAllKeeps(s: State, steps: seq<Step>)
    requires Inv(s) && TakeAll(s, steps).Some?
    ensures Inv(TakeAll(s, steps).value)
    decreases |steps|
  {
    hide Inv, Apply, Enabled;
    if steps != [] {
      StepKeeps(s, steps[0]);
      TakeAllKeeps(Apply(s, steps[0]), steps[1..]);
    }
  }

  // ----- One thread running alone -----

  /** The slots as the threads see them. */
  function Raws(s: State): seq<nat> {
    seq(|s.slots|, k requires 0 <= k < |s.slots| => s.slots[k].Raw())
  }

  /** Without a lock held, the slots of a reachable state are a ring kept inside the window. */
  lemma RawRing(s: State)
    requires Inv(s) && !Held(s)
    ensures Ring(Raws(s), s.tail, s.linked)
  {
    hide Held, Threads;
    forall p | s.tail <= p < s.tail + s.cap
      ensures if p in s.linked then At(s, p).Raw() == p + 1 else At(s, p).Raw() <= p
    {
      if p in s.linked {
        assert LinkShows(s, p);
      } else {
        assert SlotOk(s, SlotIndex(p, s.cap));
        var slot := At(s, p);
        if slot.Linked? && slot.x > p {
          SameIndex(p, slot.x, s.cap);
          assert false;
        }
      }
    }
  }

  predicate By(i: nat, step: Step) {
    !step.AddLink? && step.i == i
  }

  /** `s'` is `s` after thread `i` alone advanced the tail, on whatever is in the slots. */
  ghost predicate AdvancedAlone(s: State, i: nat, s': State)
    requires Shape(s)
  {
    && Shape(s') && s'.cap == s.cap && s'.linked == s.linked
    && s'.tail == Landing(Raws(s), s.tail) && Raws(s') == Passed(Raws(s), s.tail)
    && i in s.threads && i in s'.threads && s'.threads[i].pc.Idle? && s'.threads == s.threads[i := s'.threads[i]]
  }

  lemma {:induction false} WalksAlone(s: State, i: nat) returns (steps: seq<Step>)
    requires Shape(s) && i in s.threads && s.threads[i].pc.Walking?
    ensures forall k :: 0 <= k < |steps| ==> By(i, steps[k])
    ensures var pc := s.threads[i].pc;
            TakeAll(s, steps) == Some(To(s, i, Storing(pc.tail, WalkEnd(Raws(s), pc.pos))))
    decreases Highest(Raws(s)) - s.threads[i].pc.pos
  {
    hide WalkEnd, TakeAll;
    var s' := Apply(s, Walk(i));
    WalkOne(Raws(s), s.threads[i].pc.pos);
    if s'.threads[i].pc.Walking? {
      assert Raws(s') == Raws(s);
      var rest := WalksAlone(s', i);
      steps := [Walk(i)] + rest;
      TakeOne(s, Walk(i), rest);
      var pc := s.threads[i].pc;
      var end := Storing(pc.tail, WalkEnd(Raws(s), pc.pos));
      assert To(s', i, end).threads == To(s, i, end).threads;
    } else {
      steps := [Walk(i)];
      TakeOne(s, Walk(i), []);
      TakeNone(s');
      assert [Walk(i)] + [] == steps;
    }
  }

  /** From a forward link in the tail's slot, a thread alone gets the lock. */
  lemma LocksAlone(s: State, i: nat, maxRetry: nat) returns (steps: seq<Step>)
    requires Shape(s) && i in s.threads && s.threads[i].pc.Idle? && At(s, s.tail).Raw() > s.tail
    ensures forall k :: 0 <= k < |steps| ==> By(i, steps[k])
    ensures TakeAll(s, steps) == Some(s.(
              slots := s.slots[SlotIndex(s.tail, s.cap) := Locked(s.tail)],
              threads := s.threads[i := Thread(Walking(s.tail, At(s, s.tail).Raw()), 0, maxRetry)]))
  {
    hide SlotIndex, TakeAll;
    var next := At(s, s.tail).Raw();
    var s1 := Apply(s, Start(i, maxRetry));
    var s2 := Apply(s1, LoadSlot(i));
    var s3 := if s2.threads[i].pc.Ahead? then Apply(s2, ReloadTail(i)) else s2;
    assert s3 == s.(threads := s.threads[i := Thread(Ready(s.tail, next), 0, maxRetry)]);
    var s4 := Apply(s3, Swap(i));
    var s5 := Apply(s4, Confirm(i));
    assert s5.threads == s.threads[i := Thread(Walking(s.tail, next), 0, maxRetry)];
    hide Apply;
    TakeNone(s5);
    TakeOne(s4, Confirm(i), []);
    TakeOne(s3, Swap(i), [Confirm(i)]);
    var rest := [Swap(i), Confirm(i)];
    assert [Confirm(i)] + [] == [Confirm(i)] && [Swap(i)] + [Confirm(i)] == rest;
    assert TakeAll(s3, rest) == Some(s5);
    if s2.threads[i].pc.Ahead? {
      TakeOne(s2, ReloadTail(i), rest);
      rest := [ReloadTail(i)] + rest;
    }
    TakeOne(s1, LoadSlot(i), rest);
    TakeOne(s, Start(i, maxRetry), [LoadSlot(i)] + rest);
    steps := [Start(i, maxRetry)] + ([LoadSlot(i)] + rest);
  }

  /** An idle thread that runs alone from any state puts the tail where advancing it over the raw slots lands. */
  lemma AloneLands(s: State, i: nat, maxRetry: nat) returns (steps: seq<Step>)
    requires Shape(s) && i in s.threads && s.threads[i].pc.Idle?
    ensures forall k :: 0 <= k < |steps| ==> By(i, steps[k])
    ensures TakeAll(s, steps).Some? && AdvancedAlone(s, i, TakeAll(s, steps).value)
  {
    hide SlotIndex, TakeAll, WalkEnd;
    if At(s, s.tail).Raw() <= s.tail {
      var s1 := Apply(s, Start(i, maxRetry));
      var s2 := Apply(s1, LoadSlot(i));
      TakeNone(s2);
      TakeOne(s1, LoadSlot(i), []);
      TakeOne(s, Start(i, maxRetry), [LoadSlot(i)]);
      steps := [Start(i, maxRetry), LoadSlot(i)];
      assert [LoadSlot(i)] + [] == [LoadSlot(i)] && steps == [Start(i, maxRetry)] + [LoadSlot(i)];
      assert Raws(s2) == Raws(s);
    } else {
      var locking := LocksAlone(s, i, maxRetry);
      var s1 := TakeAll(s, locking).value;
      var walking := WalksAlone(s1, i);
      var s2 := TakeAll(s1, walking).value;
      var s3 := Apply(s2, StoreTail(i));
      TakeNone(s3);
      TakeOne(s2, StoreTail(i), []);
      assert [StoreTail(i)] + [] == [StoreTail(i)];
      TakeAllConcat(s1, walking, [StoreTail(i)]);
      TakeAllConcat(s, locking, walking + [StoreTail(i)]);
      steps := locking + (walking + [StoreTail(i)]);
      assert Raws(s1) == Passed(Raws(s), s.tail);
      assert Raws(s3) == Raws(s1);
    }
  }

  /** add_link(p, p + 1), in the window or not. */
  function WithLink(s: State, p: nat): State
    requires Shape(s)
  {
    s.(slots := s.slots[SlotIndex(p, s.cap) := Linked(p)], linked := s.linked + {p})
  }

  /** In a reachable state without a lock held, a thread alone puts the tail on the first hole. */
  lemma AloneReachesHole(s: State, i: nat, maxRetry: nat, hole: nat) returns (steps: seq<Step>)
    requires Inv(s) && !Held(s) && i in s.threads && s.threads[i].pc.Idle? && FirstHole(s.linked, s.tail, hole)
    ensures forall k :: 0 <= k < |steps| ==> By(i, steps[k])
    ensures TakeAll(s, steps).Some? && TakeAll(s, steps).value.tail == hole
  {
    RawRing(s);
    RingLands(Raws(s), s.tail, s.linked, hole);
    hide Inv, Held, TakeAll;
    steps := AloneLands(s, i, maxRetry);
  }

  /**
   Exactly when the window is needed. From a reachable state without a lock held, let `p` be
   linked a lap or more ahead of the tail, sharing its slot with the window's position `q`. A thread
   alone then stops at the first hole if that lies before `q`, and otherwise jumps to
   just past `p`; every position it passed was linked exactly if it stopped, or the window was
   full and `p` the next position.
  */
  lemma LinkOutsideWindow(s: State, i: nat, maxRetry: nat, p: nat, q: nat, hole: nat) returns (steps: seq<Step>)
    requires Inv(s) && !Held(s) && i in s.threads && s.threads[i].pc.Idle?
    requires p >= s.tail + s.cap && SharesSlot(s.tail, s.cap, p, q) && FirstHole(s.linked, s.tail, hole)
    ensures forall k :: 0 <= k < |steps| ==> By(i, steps[k])
    ensures var end := TakeAll(WithLink(s, p), steps);
            && end.Some? && end.value.linked == s.linked + {p}
            && end.value.tail == (if q > hole then hole else p + 1)
            && ((forall x :: 0 <= x < end.value.tail ==> x in end.value.linked)
                <==> q > hole || (p == s.tail + s.cap && hole == s.tail + s.cap))
  {
    RawRing(s);
    var s' := WithLink(s, p);
    assert Raws(s') == Raws(s)[SlotIndex(p, s.cap) := p + 1];
    var hole' := HoleExists(s'.linked, s.tail, p + 1);
    assert forall x :: 0 <= x < s.tail ==> x in s.linked;
    hide Inv, Held, TakeAll, SlotIndex, Landing, Ring;
    LapLanding(Raws(s), s.tail, s.linked, p, q, hole, hole');
    steps := AloneLands(s', i, maxRetry);
    AllLinkedBelow(s.linked + {p}, s.tail, hole', Landing(Raws(s'), s.tail));
  }

  /** Everything below a landing at or past the first hole is linked exactly if it is that hole. */
  lemma AllLinkedBelow(linked: set<nat>, tail: nat, hole: nat, landing: nat)
    requires FirstHole(linked, tail, hole) && landing >= tail && (landing > hole || landing == hole)
    requires forall x :: 0 <= x < tail ==> x in linked
    ensures (forall x :: 0 <= x < landing ==> x in linked) <==> landing == hole
  {
    if landing > hole { assert hole !in linked; }
  }
}
