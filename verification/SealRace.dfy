/**
 Sealing one open segment while writers come and go: every load and compare-and-swap of
 TrySealLogSegment, the hand-over to the io thread and the write of the valid size are steps of
 their own, up to the point where the io thread reads the segment.
*/
module SealRace {
  import opened Common
  import opened LogSegments

  /** Where a thread is in TrySealLogSegment. */
  datatype Sealer =
    | Idle
    | Trying(seen: Control, flag: bool)   // examined a word; its swap comes next
    | Won(flag: bool, lsn: nat)           // swapped; schedules io if the flag is up
    | Sizing(lsn: nat)                    // about to write the valid size
    | Done

  datatype State = State(
    segment: Segment,
    sealers: map<nat, Sealer>,
    inside: set<nat>,         // writers between their reservation and their exit
    leaving: set<nat>,        // last writers out of a sealed segment, about to hand it over
    read: Option<nat>)        // the valid size the io thread read

  datatype Step =
    | Load(t: nat)
    | Cas(t: nat, spurious: bool)
    | HandOver(t: nat)
    | SetSize(t: nat)
    | Reserve(w: nat, length: nat)
    | Exit(w: nat)
    | LeaverHandOver(w: nat)
    | Take

  /** A segment just opened, with nobody at it. */
  ghost predicate Init(s: State) {
    && s.segment.control == Control(Open, 0, 0) && s.segment.validSize == 0
    && s.inside == {} && s.leaving == {} && s.read == None
    && forall t :: t in s.sealers ==> s.sealers[t] == Idle
  }

  predicate Enabled(s: State, step: Step) {
    match step
    case Load(t) => t in s.sealers && s.sealers[t].Idle?
    case Cas(t, _) => t in s.sealers && s.sealers[t].Trying?
    case HandOver(t) => t in s.sealers && s.sealers[t].Won?
    case SetSize(t) => t in s.sealers && s.sealers[t].Sizing?
    case Reserve(w, length) => w !in s.inside && TryReserve(s.segment, length).succeed
    case Exit(w) => w in s.inside && s.segment.control.writers > 0
    case LeaverHandOver(w) => w in s.leaving
    case Take => s.segment.control.state == Io
  }

  /** A round of the loop on a word just loaded; the flag stays up once it is. */
  function Examine(c: Control, flag: bool): Sealer {
    if c.state != Open || c.offset == 0 then Idle else Trying(c, flag || c.writers == 0)
  }

  /** CasState_ from kSeal to kIo. */
  function ToIo(c: Control): Control {
    if c.state == Seal then c.(state := Io) else c
  }

  function Apply(s: State, step: Step): State
    requires Enabled(s, step)
  {
    var c := s.segment.control;
    match step
    case Load(t) => s.(sealers := s.sealers[t := Examine(c, false)])
    case Cas(t, spurious) =>
      var me := s.sealers[t];
      if c == me.seen && !spurious then
        s.(segment := s.segment.(control := c.(state := Seal)), sealers := s.sealers[t := Won(me.flag, c.offset)])
      else s.(sealers := s.sealers[t := Examine(c, me.flag)])
    case HandOver(t) =>
      s.(segment := s.segment.(control := if s.sealers[t].flag then ToIo(c) else c),
         sealers := s.sealers[t := Sizing(s.sealers[t].lsn)])
    case SetSize(t) =>
      s.(segment := s.segment.(validSize := s.sealers[t].lsn), sealers := s.sealers[t := Done])
    case Reserve(w, length) => s.(segment := Reserved(s.segment, length), inside := s.inside + {w})
    case Exit(w) =>
      s.(segment := s.segment.(control := c.(writers := c.writers - 1)), inside := s.inside - {w},
         leaving := if c.writers == 1 && c.state == Seal then s.leaving + {w} else s.leaving)
    case LeaverHandOver(w) =>
      s.(segment := s.segment.(control := ToIo(c)), leaving := s.leaving - {w})
    case Take => s.(read := Some(s.segment.validSize))
  }

  ghost predicate IsRun(states: seq<State>, steps: seq<Step>) {
    && |states| == |steps| + 1 && Init(states[0])
    && forall i :: 0 <= i < |steps| ==> Enabled(states[i], steps[i]) && states[i + 1] == Apply(states[i], steps[i])
  }

  // ----- The invariant -----

  /** Past its winning swap. */
  predicate Winner(p: Sealer) {
    p.Won? || p.Sizing? || p.Done?
  }

  ghost predicate Book(s: State) {
    && s.segment.control.writers == |s.inside| && s.segment.control.state != Free
    && (s.segment.control.state == Open ==> s.leaving == {} && s.segment.validSize == 0)
    && (s.leaving != {} ==> s.inside == {})
  }

  /** One thread won exactly if the segment is not open; it knows the sealed offset, and the size is its to write. */
  ghost predicate OneWinner(s: State) {
    && (forall t :: t in s.sealers && Winner(s.sealers[t]) ==> s.segment.control.state != Open)
    && (forall t, u :: t in s.sealers && u in s.sealers && Winner(s.sealers[t]) && Winner(s.sealers[u]) ==> t == u)
    && (s.segment.control.state != Open ==>
          s.segment.control.offset > 0 && exists t :: t in s.sealers && Winner(s.sealers[t]))
    && (forall t :: t in s.sealers && (s.sealers[t].Won? || s.sealers[t].Sizing?) ==>
          s.sealers[t].lsn == s.segment.control.offset && s.segment.validSize == 0)
    && (forall t :: t in s.sealers && s.sealers[t].Done? ==> s.segment.validSize == s.segment.control.offset)
  }

  /** Io with a writer inside comes only after the winner's own hand-over. */
  ghost predicate Early(s: State) {
    forall t :: t in s.sealers && s.sealers[t].Won? && s.inside != {} ==> s.segment.control.state == Seal
  }

  /** A word that was examined was open and not empty. */
  ghost predicate Tries(s: State) {
    forall t :: t in s.sealers && s.sealers[t].Trying? ==>
      && s.sealers[t].seen.state == Open && s.sealers[t].seen.offset > 0
      && (s.sealers[t].seen.writers == 0 ==> s.sealers[t].flag)
  }

  ghost predicate Inv(s: State) {
    Book(s) && OneWinner(s) && Early(s) && Tries(s)
  }

  lemma BookKept(s: State, step: Step)
    requires Book(s) && OneWinner(s) && Enabled(s, step)
    ensures Book(Apply(s, step))
  {
    if step.Exit? {
      assert |s.inside - {step.w}| == |s.inside| - 1;
      if s.segment.control.writers == 1 { assert s.inside - {step.w} == {}; }
    }
  }

  predicate SealerStep(step: Step) {
    step.Load? || step.Cas? || step.HandOver? || step.SetSize?
  }

  lemma WriterKeepsOneWinner(s: State, step: Step)
    requires OneWinner(s) && Enabled(s, step) && !SealerStep(step)
    ensures OneWinner(Apply(s, step))
  {
    var s' := Apply(s, step);
    assert s'.sealers == s.sealers && (s'.segment.control.state == Open) == (s.segment.control.state == Open);
  }

  /** The winning swap. */
  lemma SealKeepsOneWinner(s: State, t: nat)
    requires OneWinner(s) && Book(s) && Tries(s) && Enabled(s, Cas(t, false))
    requires s.segment.control == s.sealers[t].seen
    ensures OneWinner(Apply(s, Cas(t, false)))
  {
    var s' := Apply(s, Cas(t, false));
    assert s.segment.control.state == Open;
    assert t in s'.sealers && Winner(s'.sealers[t]);
  }

  lemma SealerKeepsOneWinner(s: State, step: Step)
    requires OneWinner(s) && Enabled(s, step) && SealerStep(step)
    requires step.Cas? ==> step.spurious || s.segment.control != s.sealers[step.t].seen
    ensures OneWinner(Apply(s, step))
  {
    var s' := Apply(s, step);
    assert s'.sealers == s.sealers[step.t := s'.sealers[step.t]];
    assert (s'.segment.control.state == Open) == (s.segment.control.state == Open);
    assert Winner(s'.sealers[step.t]) == Winner(s.sealers[step.t]);
    if s.segment.control.state != Open {
      var t :| t in s.sealers && Winner(s.sealers[t]);
      assert t in s'.sealers && Winner(s'.sealers[t]);
    }
  }

  lemma EarlyKept(s: State, step: Step)
    requires Inv(s) && Enabled(s, step)
    ensures Early(Apply(s, step))
  {
    var s' := Apply(s, step);
    forall t | t in s'.sealers && s'.sealers[t].Won? && s'.inside != {}
      ensures s'.segment.control.state == Seal
    {
      if SealerStep(step) && t != step.t { assert s'.sealers[t] == s.sealers[t]; }
    }
  }

  lemma TriesKept(s: State, step: Step)
    requires Tries(s) && Enabled(s, step)
    ensures Tries(Apply(s, step))
  {
  }

  lemma KeepsOneWinner(s: State, step: Step)
    requires OneWinner(s) && Book(s) && Tries(s) && Enabled(s, step)
    ensures OneWinner(Apply(s, step))
  {
    hide OneWinner, Book, Tries, Apply;
    if !SealerStep(step) {
      WriterKeepsOneWinner(s, step);
    } else if step.Cas? && !step.spurious && s.segment.control == s.sealers[step.t].seen {
      SealKeepsOneWinner(s, step.t);
    } else {
      SealerKeepsOneWinner(s, step);
    }
  }

  lemma StepKeeps(s: State, step: Step)
    requires Inv(s) && Enabled(s, step)
    ensures Inv(Apply(s, step))
  {
    hide Book, OneWinner, Early, Tries, Apply, Enabled;
    BookKept(s, step);
    EarlyKept(s, step);
    KeepsOneWinner(s, step);
    TriesKept(s, step);
  }

  lemma {:induction false} RunHolds(states: seq<State>, steps: seq<Step>, n: nat)
    requires IsRun(states, steps) && n < |states|
    ensures Inv(states[n])
  {
    if n > 0 {
      hide Inv, Apply, Enabled, Init;
      RunHolds(states, steps, n - 1);
      StepKeeps(states[n - 1], steps[n - 1]);
    }
  }

  // ----- Looking back along a run -----

  ghost predicate Is(s: State, t: nat, p: Sealer) {
    t in s.sealers && s.sealers[t] == p
  }

  ghost predicate IsTrying(s: State, t: nat) {
    t in s.sealers && s.sealers[t].Trying?
  }

  /** Step `a` is a round of `t` that examined a word without writers. */
  ghost predicate SawNoWriters(states: seq<State>, steps: seq<Step>, t: nat, a: nat) {
    && a < |steps| && a + 1 < |states| && (steps[a].Load? || steps[a].Cas?) && steps[a].t == t
    && states[a].segment.control.writers == 0 && IsTrying(states[a + 1], t)
  }

  /** ... and `t` is still in the same call up to state `c`. */
  ghost predicate SameCall(states: seq<State>, t: nat, a: nat, c: nat) {
    c < |states| && forall m :: a < m <= c ==> IsTrying(states[m], t)
  }

  /** Step `c` is the swap by which `t` seals the segment. */
  ghost predicate Wins(states: seq<State>, steps: seq<Step>, t: nat, c: nat) {
    && c < |steps| && c + 1 < |states| && steps[c].Cas? && steps[c].t == t
    && t in states[c + 1].sealers && states[c + 1].sealers[t].Won?
  }

  /** `w` reserves in step `b` and has not left by state `h`. */
  ghost predicate StaysInside(steps: seq<Step>, w: nat, b: nat, h: nat) {
    b < h <= |steps| && steps[b].Reserve? && steps[b].w == w && forall m :: b < m < h ==> steps[m] != Exit(w)
  }

  /** A raised flag was raised in some round of the call. */
  lemma {:induction false} FlagRaised(states: seq<State>, steps: seq<Step>, t: nat, c: nat) returns (a: nat)
    requires IsRun(states, steps) && c < |states| && IsTrying(states[c], t) && states[c].sealers[t].flag
    ensures a < c && SawNoWriters(states, steps, t, a) && SameCall(states, t, a, c)
    decreases c
  {
    var s, step := states[c - 1], steps[c - 1];
    if (step.Load? || step.Cas?) && step.t == t && s.segment.control.writers == 0 {
      a := c - 1;
    } else {
      assert IsTrying(s, t) && s.sealers[t].flag;
      a := FlagRaised(states, steps, t, c - 1);
    }
  }

  /** Once raised it stays up for the rest of the call. */
  lemma {:induction false} FlagStays(states: seq<State>, steps: seq<Step>, t: nat, a: nat, c: nat)
    requires IsRun(states, steps) && SawNoWriters(states, steps, t, a) && a < c && SameCall(states, t, a, c)
    ensures states[c].sealers[t].flag
    decreases c
  {
    if a + 1 < c {
      FlagStays(states, steps, t, a, c - 1);
      assert IsTrying(states[c - 1], t) && IsTrying(states[c], t);
    }
  }

  /** A thread that has sealed did so in some step, with the flag of its last round. */
  lemma {:induction false} WonOnce(states: seq<State>, steps: seq<Step>, t: nat, h: nat) returns (c: nat)
    requires IsRun(states, steps) && h < |states| && t in states[h].sealers && states[h].sealers[t].Won?
    ensures c < h && Wins(states, steps, t, c) && IsTrying(states[c], t)
    ensures states[c].sealers[t].flag == states[h].sealers[t].flag
    ensures forall m :: c < m <= h ==> Is(states[m], t, states[h].sealers[t])
    decreases h
  {
    if steps[h - 1].Cas? && steps[h - 1].t == t {
      c := h - 1;
    } else {
      c := WonOnce(states, steps, t, h - 1);
    }
  }

  lemma {:induction false} NeverReopens(states: seq<State>, steps: seq<Step>, m: nat, n: nat)
    requires IsRun(states, steps) && m <= n < |states| && states[m].segment.control.state != Open
    ensures states[n].segment.control.state != Open
    decreases n
  {
    if m < n { NeverReopens(states, steps, m, n - 1); }
  }

  /** A writer that was not inside and now is reserved in between, and has not left since. */
  lemma {:induction false} Entered(states: seq<State>, steps: seq<Step>, w: nat, a: nat, h: nat) returns (b: nat)
    requires IsRun(states, steps) && a < h < |states| && w !in states[a].inside && w in states[h].inside
    ensures a <= b && StaysInside(steps, w, b, h)
    decreases h
  {
    if w in states[h - 1].inside {
      b := Entered(states, steps, w, a, h - 1);
    } else {
      b := h - 1;
    }
  }

  lemma {:induction false} StillInside(states: seq<State>, steps: seq<Step>, w: nat, b: nat, h: nat)
    requires IsRun(states, steps) && StaysInside(steps, w, b, h)
    ensures w in states[h].inside
    decreases h
  {
    if b + 1 < h { StillInside(states, steps, w, b, h - 1); }
  }

  // ----- Io with a writer inside -----

  /**
   In the call of TrySealLogSegment by which `t` seals the segment at step `c`, round `a` saw no
   writers, then `w` reserved at step `b`, and it has not left by state `h`.
  */
  ghost predicate Overtaken(
    states: seq<State>, steps: seq<Step>, t: nat, a: nat, b: nat, c: nat, w: nat, h: nat)
  {
    && a < b < c < h && SawNoWriters(states, steps, t, a) && SameCall(states, t, a, c)
    && Wins(states, steps, t, c) && StaysInside(steps, w, b, h)
  }

  predicate IoWithWriter(s: State) {
    s.segment.control.state == Io && s.inside != {}
  }

  /** Only the sealing thread's own hand-over puts a segment with a writer inside into Io. */
  lemma OnlySealerHandsOverEarly(s: State, step: Step)
    requires Inv(s) && Enabled(s, step) && !IoWithWriter(s) && IoWithWriter(Apply(s, step))
    ensures step.HandOver?
  {
  }

  /**
   Exactly when a step puts a segment with a writer inside into Io: it is the sealing thread's
   hand-over, and some writer reserved between a round of the same call that saw none and the
   winning swap, and has not left yet.
  */
  lemma EarlyIoExact(states: seq<State>, steps: seq<Step>, h: nat)
    requires IsRun(states, steps) && h < |steps| && !IoWithWriter(states[h])
    ensures IoWithWriter(states[h + 1]) <==>
              steps[h].HandOver? && exists a, b, c, w :: Overtaken(states, steps, steps[h].t, a, b, c, w, h)
  {
    RunHolds(states, steps, h);
    if IoWithWriter(states[h + 1]) {
      OnlySealerHandsOverEarly(states[h], steps[h]);
      var a, b, c, w := WhoOvertook(states, steps, h, steps[h].t);
    }
    if steps[h].HandOver? {
      var t := steps[h].t;
      if a, b, c, w :| Overtaken(states, steps, t, a, b, c, w, h) {
        OvertakenIsEarly(states, steps, h, t, a, b, c, w);
      }
    }
  }

  lemma WhoOvertook(states: seq<State>, steps: seq<Step>, h: nat, t: nat) returns (a: nat, b: nat, c: nat, w: nat)
    requires IsRun(states, steps) && h < |steps| && steps[h] == HandOver(t) && Inv(states[h])
    requires IoWithWriter(states[h + 1])
    ensures Overtaken(states, steps, t, a, b, c, w, h)
  {
    assert states[h].sealers[t].flag && states[h].inside != {};
    c := WonOnce(states, steps, t, h);
    a := FlagRaised(states, steps, t, c);
    RunHolds(states, steps, a);
    w :| w in states[h].inside;
    b := Entered(states, steps, w, a, h);
    assert states[c + 1].segment.control.state != Open;
    if b > c { NeverReopens(states, steps, c + 1, b); }
  }

  lemma OvertakenIsEarly(
    states: seq<State>, steps: seq<Step>, h: nat, t: nat, a: nat, b: nat, c: nat, w: nat)
    requires IsRun(states, steps) && h < |steps| && steps[h] == HandOver(t) && Inv(states[h])
    requires Overtaken(states, steps, t, a, b, c, w, h)
    ensures IoWithWriter(states[h + 1])
  {
    FlagStays(states, steps, t, a, c);
    StillInside(states, steps, w, b, h);
    var c' := WonOnce(states, steps, t, h);
    if c < c' { WinnerStays(states, steps, t, c + 1, c'); }
  }

  /** A thread that has sealed never tries again. */
  lemma {:induction false} WinnerStays(states: seq<State>, steps: seq<Step>, t: nat, m: nat, n: nat)
    requires IsRun(states, steps) && m <= n < |states| && t in states[m].sealers && Winner(states[m].sealers[t])
    ensures t in states[n].sealers && Winner(states[n].sealers[t])
    decreases n
  {
    if m < n { WinnerStays(states, steps, t, m, n - 1); }
  }

  // ----- Nobody forgets a sealed segment -----

  /** A sealed segment without writers has somebody who is about to hand it over. */
  ghost predicate Promised(s: State) {
    s.segment.control.state == Seal && s.inside == {} ==>
      s.leaving != {} || exists t :: t in s.sealers && s.sealers[t].Won? && s.sealers[t].flag
  }

  lemma PromiseKept(s: State, step: Step)
    requires Inv(s) && Promised(s) && Enabled(s, step)
    ensures Promised(Apply(s, step))
  {
    var s' := Apply(s, step);
    hide Early;
    if s'.segment.control.state == Seal && s'.inside == {} {
      if step.Cas? && s.segment.control.state == Open {
        assert s'.sealers[step.t].Won? && s'.sealers[step.t].flag;
      } else if step.Exit? {
        assert s.inside == {step.w};
        assert |s.inside| == 1;
      } else if t :| t in s.sealers && s.sealers[t].Won? && s.sealers[t].flag {
        assert t in s'.sealers && s'.sealers[t] == s.sealers[t];
      }
    }
  }

  /** In every reachable state a segment that is sealed and empty of writers will go to the io thread. */
  lemma {:induction false} SealedIsHandedOver(states: seq<State>, steps: seq<Step>, n: nat)
    requires IsRun(states, steps) && n < |states|
    ensures Promised(states[n])
  {
    if n > 0 {
      hide Inv, Apply, Enabled, Promised;
      SealedIsHandedOver(states, steps, n - 1);
      RunHolds(states, steps, n - 1);
      PromiseKept(states[n - 1], steps[n - 1]);
    }
  }

  // ----- The size the io thread reads -----

  ghost predicate SizeWritten(steps: seq<Step>, k: nat) {
    k <= |steps| && exists m :: 0 <= m < k && steps[m].SetSize?
  }

  lemma {:induction false} SizeTracksWrite(states: seq<State>, steps: seq<Step>, k: nat)
    requires IsRun(states, steps) && k < |states|
    ensures SizeWritten(steps, k) <==> exists t :: t in states[k].sealers && states[k].sealers[t].Done?
    decreases k
  {
    if k > 0 {
      SizeTracksWrite(states, steps, k - 1);
      var s, s', step := states[k - 1], states[k], steps[k - 1];
      assert SizeWritten(steps, k) <==> SizeWritten(steps, k - 1) || step.SetSize?;
      if t :| t in s.sealers && s.sealers[t].Done? { assert t in s'.sealers && s'.sealers[t].Done?; }
      if step.SetSize? { assert step.t in s'.sealers && s'.sealers[step.t].Done?; }
      if t :| t in s'.sealers && s'.sealers[t].Done? { assert step.SetSize? || s.sealers[t].Done?; }
    }
  }

  /**
   The io thread reads the offset the segment was sealed at exactly if the sealing thread has
   written it by then; otherwise it reads zero, and takes a segment with records for an empty one.
  */
  lemma StaleSizeExact(states: seq<State>, steps: seq<Step>, k: nat)
    requires IsRun(states, steps) && k < |steps| && steps[k] == Take
    ensures states[k].segment.control.offset > 0
    ensures states[k + 1].read == Some(if SizeWritten(steps, k) then states[k].segment.control.offset else 0)
  {
    RunHolds(states, steps, k);
    SizeTracksWrite(states, steps, k);
  }

  // ----- Both happen -----

  function TakeAll(s: State, steps: seq<Step>): Option<State>
    decreases |steps|
  {
    if steps == [] then Some(s)
    else if Enabled(s, steps[0]) then TakeAll(Apply(s, steps[0]), steps[1..])
    else None
  }

  lemma TakeOne(s: State, step: Step, rest: seq<Step>)
    requires Enabled(s, step)
    ensures TakeAll(s, [step] + rest) == TakeAll(Apply(s, step), rest)
  {
    assert ([step] + rest)[1..] == rest;
  }

  lemma TakeNone(s: State)
    ensures TakeAll(s, []) == Some(s)
  {
  }

  lemma {:induction false} TakeAllConcat(s: State, a: seq<Step>, b: seq<Step>)
    requires TakeAll(s, a).Some?
    ensures TakeAll(s, a + b) == TakeAll(TakeAll(s, a).value, b)
    decreases |a|
  {
    hide Apply, Enabled;
    if a == [] {
      assert a + b == b;
    } else {
      TakeAllConcat(Apply(s, a[0]), a[1..], b);
      assert (a + b)[1..] == a[1..] + b;
    }
  }

  lemma TakeFour(s: State, a: Step, b: Step, c: Step, d: Step)
    requires Enabled(s, a) && Enabled(Apply(s, a), b) && Enabled(Apply(Apply(s, a), b), c)
    requires Enabled(Apply(Apply(Apply(s, a), b), c), d)
    ensures TakeAll(s, [a, b, c, d]) == Some(Apply(Apply(Apply(Apply(s, a), b), c), d))
  {
    hide Apply, Enabled, TakeAll;
    var s1 := Apply(s, a);
    var s2 := Apply(s1, b);
    var s3 := Apply(s2, c);
    assert [a, b, c, d] == [a] + [b, c, d] && [b, c, d] == [b] + [c, d] && [c, d] == [c] + [d] && [d] == [d] + [];
    TakeOne(s, a, [b, c, d]);
    TakeOne(s1, b, [c, d]);
    TakeOne(s2, c, [d]);
    TakeOne(s3, d, []);
    TakeNone(Apply(s3, d));
  }

  /** A writer comes and goes, a sealer sees none, another writer enters. */
  function WriterEnters(t: nat, v: nat, w: nat, length: nat): seq<Step> {
    [Reserve(v, length), Exit(v), Load(t), Reserve(w, length)]
  }

  /** The sealer's first swap fails, its second wins. */
  function SealsAnyway(t: nat): seq<Step> {
    [Cas(t, false), Cas(t, false), HandOver(t), Take]
  }

  /** The sealer has its flag up, and a writer is inside. */
  ghost predicate FlagUp(s: State, t: nat, w: nat, length: nat) {
    && s.segment.control == Control(Open, 1, 2 * length) && s.segment.validSize == 0
    && s.inside == {w} && Is(s, t, Trying(Control(Open, 0, length), true))
  }

  lemma WriterEntersLate(s: State, t: nat, v: nat, w: nat, length: nat)
    requires Init(s) && t in s.sealers && 0 < length && 2 * length <= |s.segment.buffer|
    ensures var end := TakeAll(s, WriterEnters(t, v, w, length)); end.Some? && FlagUp(end.value, t, w, length)
  {
    hide TakeAll;
    var s1 := Apply(s, Reserve(v, length));
    var s2 := Apply(s1, Exit(v));
    var s3 := Apply(s2, Load(t));
    assert FlagUp(Apply(s3, Reserve(w, length)), t, w, length);
    hide Apply, Enabled;
    TakeFour(s, Reserve(v, length), Exit(v), Load(t), Reserve(w, length));
  }

  lemma SealsWithWriter(s: State, t: nat, w: nat, length: nat)
    requires FlagUp(s, t, w, length) && 0 < length
    ensures var end := TakeAll(s, SealsAnyway(t));
            && end.Some? && end.value.inside == {w}
            && end.value.segment.control == Control(Io, 1, 2 * length) && end.value.read == Some(0)
  {
    hide TakeAll;
    var s1 := Apply(s, Cas(t, false));
    var s2 := Apply(s1, Cas(t, false));
    var s3 := Apply(s2, HandOver(t));
    var s4 := Apply(s3, Take);
    assert s4.segment.control == Control(Io, 1, 2 * length) && s4.read == Some(0);
    hide Apply, Enabled;
    TakeFour(s, Cas(t, false), Cas(t, false), HandOver(t), Take);
  }

  /** The io thread gets a segment that a writer is still filling, and takes it for empty. */
  lemma LateWriterMeetsIo(s: State, t: nat, v: nat, w: nat, length: nat)
    requires Init(s) && t in s.sealers && 0 < length && 2 * length <= |s.segment.buffer|
    ensures var end := TakeAll(s, WriterEnters(t, v, w, length) + SealsAnyway(t));
            && end.Some? && end.value.inside == {w}
            && end.value.segment.control == Control(Io, 1, 2 * length) && end.value.read == Some(0)
  {
    hide TakeAll, WriterEnters, SealsAnyway, FlagUp;
    WriterEntersLate(s, t, v, w, length);
    SealsWithWriter(TakeAll(s, WriterEnters(t, v, w, length)).value, t, w, length);
    TakeAllConcat(s, WriterEnters(t, v, w, length), SealsAnyway(t));
  }
}
