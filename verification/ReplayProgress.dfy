/** Runs end, and when nested calls take keys in increasing order no run gets stuck before they do. */
module ReplayProgress {
  import opened Wrappers
  import opened ReplayCodec
  import opened ReplayTable
  import opened ReplayProtocol
  import opened ReplayInvariant

  // ---------------------------------------------------------------- every run is bounded

  /** Steps a call still has ahead of it, plus, while it may still publish, the waiters it may wake. */
  function Weight(p: Phase, n: nat): nat {
    match p
    case Idle => n + 11
    case Prepared => n + 10
    case Entering(_) => n + 9
    case Resuming(_) => n + 8
    case Waiting(_) => n + 7
    case Dispatching(_) => n + 6
    case Completing(_, _) => n + 5
    case Publishing(_) => n + 4
    case Decoding(_) => 2
    case Finished(_) => 0
  }

  function Total(ps: seq<Phase>, n: nat): nat {
    if ps == [] then 0 else Weight(ps[0], n) + Total(ps[1..], n)
  }

  lemma {:induction false} TotalUpdate(ps: seq<Phase>, n: nat, c: nat, p: Phase)
    requires c < |ps|
    ensures Total(ps[c := p], n) + Weight(ps[c], n) == Total(ps, n) + Weight(p, n)
    decreases |ps|
  {
    hide Weight;
    if c > 0 {
      TotalUpdate(ps[1..], n, c - 1, p);
      assert ps[c := p][1..] == ps[1..][c - 1 := p];
    } else {
      assert ps[c := p][1..] == ps[1..];
    }
  }

  lemma {:induction false} TotalNotified(ps: seq<Phase>, n: nat)
    ensures Total(Notified(ps), n) <= Total(ps, n) + |ps|
    decreases |ps|
  {
    if ps != [] {
      TotalNotified(ps[1..], n);
      assert Notified(ps)[1..] == Notified(ps[1..]);
      assert Weight(Woken(ps[0]), n) <= Weight(ps[0], n) + 1;
      hide Weight, Woken;
    }
  }

  lemma {:induction false} TotalIdle(ps: seq<Phase>, n: nat)
    requires forall i | 0 <= i < |ps| :: ps[i].Idle?
    ensures Total(ps, n) == |ps| * (n + 11)
    decreases |ps|
  {
    if ps != [] {
      TotalIdle(ps[1..], n);
      assert Total(ps, n) == n + 11 + (|ps| - 1) * (n + 11);
    }
  }

  lemma LookShape(s: State, c: CallId, initial: Nanos)
    requires c < |s.calls| == |s.phases| && OnTop(s, c)
    ensures var p := LookUp(s, c, initial).phases[c];
            LookUp(s, c, initial).phases == s.phases[c := p]
                && (p.Dispatching? || p.Finished? || p.Decoding? || p.Waiting?)
  {
    hide Popped, OnTop, Looked, DecisionFor, OriginOf;
  }

  lemma LookPhase(s: State, c: CallId, initial: Nanos)
    requires c < |s.calls| == |s.phases| && OnTop(s, c)
    ensures var p := LookUp(s, c, initial).phases[c];
            LookUp(s, c, initial).phases == s.phases[c := p] && Weight(p, |s.calls|) <= |s.calls| + 7
  {
    hide LookUp, OnTop;
    LookShape(s, c, initial);
  }

  lemma BeginPhase(s: State, c: CallId)
    requires Enabled(s, Begin(c))
    ensures var p := Next(s, Begin(c)).phases[c];
            Next(s, Begin(c)).phases == s.phases[c := p] && Weight(p, |s.calls|) < Weight(s.phases[c], |s.calls|)
  {
    hide Fallback, OnTop, Stack;
  }

  /** How a step outside the lock takes its call from phase `p` to phase `q`. */
  predicate Follows(p: Phase, q: Phase) {
    match p
    case Prepared => q.Entering? || q.Finished?
    case Dispatching(_) => q.Completing? || q.Publishing?
    case Completing(_, _) => q.Publishing?
    case Decoding(_) => q.Finished?
    case _ => false
  }

  lemma FollowingIsLighter(p: Phase, q: Phase, n: nat)
    requires Follows(p, q)
    ensures Weight(q, n) < Weight(p, n)
  {
  }

  lemma LocalFollows(s: State, l: Label)
    requires Enabled(s, l) && Local(l)
    ensures Follows(s.phases[l.c], Next(s, l).phases[l.c])
  {
    hide FallbackOf, DispatchBytes, Settle, DecodeOrFallback, InitialClock, Popped, OnTop, Finish, MayBegin;
    hide Fallback, LookUp, PublishStep, PrunedState, Stack, Weight;
  }

  lemma LocalPhase(s: State, l: Label)
    requires Enabled(s, l) && Local(l)
    ensures var p := Next(s, l).phases[l.c];
            Next(s, l).phases == s.phases[l.c := p] && Weight(p, |s.calls|) < Weight(s.phases[l.c], |s.calls|)
  {
    LocalFollows(s, l);
    FollowingIsLighter(s.phases[l.c], Next(s, l).phases[l.c], |s.calls|);
    hide Follows;
    hide FallbackOf, DispatchBytes, Settle, DecodeOrFallback, InitialClock, Popped, OnTop, Finish, MayBegin;
    hide Fallback, LookUp, PublishStep, PrunedState, Stack, Weight;
  }

  /** Apart from publication, a step changes the phase of its own call only, and brings it closer to its end. */
  lemma StepPhase(s: State, l: Label)
    requires Enabled(s, l) && !l.Publish?
    ensures var p := Next(s, l).phases[l.c];
            Next(s, l).phases == s.phases[l.c := p] && Weight(p, |s.calls|) < Weight(s.phases[l.c], |s.calls|)
  {
    hide LookUp, OnTop, MayBegin, Pruned, Fallback;
    match l {
      case Begin(c) => BeginPhase(s, c);
      case Enter(c) =>
        OnTopFrame(s, PrunedState(s, s.phases[c].initial), c);
        LookPhase(PrunedState(s, s.phases[c].initial), c, s.phases[c].initial);
      case Resume(c) => LookPhase(s, c, s.phases[c].initial);
      case _ => LocalPhase(s, l); hide Next;
    }
  }

  lemma PublishPhases(s: State, l: Label)
    requires Enabled(s, l) && l.Publish?
    ensures var p := Next(s, l).phases[l.c];
            && Weight(p, |s.calls|) <= 2
            && (Next(s, l).phases == s.phases[l.c := p] || Next(s, l).phases == Notified(s.phases)[l.c := p])
  {
    hide Popped, OnTop, HoldsReservation, TerminalOf, MayBegin;
  }

  /** A step leaves the phases of other calls alone, apart from waking waiters. */
  lemma OtherPhases(s: State, l: Label)
    requires Enabled(s, l)
    ensures forall d | 0 <= d < |s.phases| && d != l.c ::
              Next(s, l).phases[d] == s.phases[d] || Next(s, l).phases[d] == Woken(s.phases[d])
  {
    hide Next, OnTop, MayBegin, Weight, Woken;
    if l.Publish? {
      PublishPhases(s, l);
    } else {
      StepPhase(s, l);
    }
  }

  lemma LookStacks(s: State, c: CallId, initial: Nanos, t: ThreadId)
    requires c < |s.calls| == |s.phases| && OnTop(s, c) && t != s.calls[c].thread
    ensures Stack(LookUp(s, c, initial), t) == Stack(s, t)
  {
    hide OnTop, Looked, Decide, OriginOf;
  }

  lemma PublishStacks(s: State, c: CallId, st: Settlement, t: ThreadId)
    requires c < |s.calls| == |s.phases| && OnTop(s, c) && t != s.calls[c].thread
    ensures Stack(PublishStep(s, c, st), t) == Stack(s, t)
  {
    hide OnTop, HoldsReservation, TerminalOf, Notified;
  }

  lemma LocalStacks(s: State, l: Label, t: ThreadId)
    requires Enabled(s, l) && Local(l) && t != s.calls[l.c].thread
    ensures Stack(Next(s, l), t) == Stack(s, t)
  {
    hide FallbackOf, DispatchBytes, Settle, DecodeOrFallback, InitialClock, OnTop, Finish, MayBegin;
    hide Fallback, LookUp, PublishStep, PrunedState;
  }

  lemma BeginStacks(s: State, c: CallId, t: ThreadId)
    requires Enabled(s, Begin(c)) && t != s.calls[c].thread
    ensures Stack(Next(s, Begin(c)), t) == Stack(s, t)
  {
    hide Fallback, OnTop, MayBegin;
  }

  /** A step leaves the stacks of other threads alone. */
  lemma OtherStacks(s: State, l: Label, t: ThreadId)
    requires Enabled(s, l) && t != s.calls[l.c].thread
    ensures Stack(Next(s, l), t) == Stack(s, t)
  {
    hide LookUp, PublishStep, OnTop, MayBegin, Pruned, Fallback;
    match l {
      case Begin(c) => BeginStacks(s, c, t); hide Next;
      case Enter(c) =>
        var now := s.phases[c].initial;
        OnTopFrame(s, PrunedState(s, now), c);
        LookStacks(PrunedState(s, now), c, now, t);
      case Resume(c) => LookStacks(s, c, s.phases[c].initial, t);
      case Publish(c) => PublishStacks(s, c, s.phases[c].st, t);
      case _ => LocalStacks(s, l, t); hide Next;
    }
  }

  /** A call that does not wait keeps its phase in every run of other calls. */
  lemma {:induction false} PhaseStays(s: State, ls: seq<Label>, c: CallId)
    requires Runs(s, ls) && OthersOnly(ls, c) && c < |s.phases| && !s.phases[c].Waiting?
    ensures |After(s, ls).phases| == |s.phases| && After(s, ls).phases[c] == s.phases[c]
    decreases |ls|
  {
    hide Next, Enabled;
    if ls != [] {
      OtherPhases(s, ls[0]);
      PhaseStays(Next(s, ls[0]), ls[1..], c);
    }
  }

  lemma StepDecreases(s: State, l: Label)
    requires Enabled(s, l)
    ensures Total(Next(s, l).phases, |s.calls|) < Total(s.phases, |s.calls|)
  {
    var n := |s.calls|;
    var p := Next(s, l).phases[l.c];
    if l.Publish? {
      assert s.phases[l.c].Publishing?;
      hide Next, Enabled;
      PublishPhases(s, l);
      TotalUpdate(s.phases, n, l.c, p);
      TotalUpdate(Notified(s.phases), n, l.c, p);
      TotalNotified(s.phases, n);
    } else {
      hide Next, Enabled;
      StepPhase(s, l);
      TotalUpdate(s.phases, n, l.c, p);
    }
  }

  lemma {:induction false} RunDecreases(s: State, ls: seq<Label>)
    requires |s.phases| == |s.calls| && Runs(s, ls)
    ensures |ls| + Total(After(s, ls).phases, |s.calls|) <= Total(s.phases, |s.calls|)
    decreases |ls|
  {
    hide Next, Enabled, Total;
    if ls != [] {
      StepDecreases(s, ls[0]);
      RunDecreases(Next(s, ls[0]), ls[1..]);
    }
  }

  /** `n` calls take at most `n * (n + 11)` steps between them, whatever the scheduling and the keys. */
  lemma RunsAreBounded(s: State, ls: seq<Label>)
    requires Init(s) && Runs(s, ls)
    ensures |ls| <= |s.calls| * (|s.calls| + 11)
  {
    RunDecreases(s, ls);
    TotalIdle(s.phases, |s.calls|);
  }

  // ---------------------------------------------------------------- nested keys in increasing order

  /** A dispatch calls `execute` only on keys that come later in the order given by `rank`. */
  ghost predicate Ordered(calls: seq<Call>, rank: Key -> nat) {
    forall c, p | 0 <= c < |calls| && 0 <= p < |calls| && calls[c].parent == Some(p) ::
        rank(calls[p].key) < rank(calls[c].key)
  }

  function MaxRank(calls: seq<Call>, rank: Key -> nat): (m: nat)
    ensures forall c | 0 <= c < |calls| :: rank(calls[c].key) <= m
  {
    if calls == [] then 0 else
    var m := MaxRank(calls[1..], rank);
    assert forall c | 1 <= c < |calls| :: calls[c] == calls[1..][c - 1];
    if rank(calls[0].key) > m then rank(calls[0].key) else m
  }

  lemma {:induction false} StackRises(s: State, rank: Key -> nat, t: ThreadId, i: nat, j: nat)
    requires Sized(s) && t in s.stacks && StackFormed(s, t) && Ordered(s.calls, rank) && i < j < |s.stacks[t]|
    ensures rank(s.calls[s.stacks[t][i]].key) < rank(s.calls[s.stacks[t][j]].key)
    decreases j
  {
    assert s.calls[s.stacks[t][j]].parent == Some(s.stacks[t][j - 1]);
    if i < j - 1 {
      StackRises(s, rank, t, i, j - 1);
    }
  }

  /** The step a call on top of its stack can take whenever it is not waiting. */
  function NextLabel(s: State, c: CallId): Label
    requires c < |s.phases|
  {
    match s.phases[c]
    case Prepared => ReadClock(c, Reading(0))
    case Entering(_) => Enter(c)
    case Resuming(_) => Resume(c)
    case Dispatching(_) => EndDispatch(c, Raises)
    case Completing(_, _) => Complete(c, NotAnInteger)
    case Publishing(_) => Publish(c)
    case Decoding(_) => Decode(c)
    case _ => Begin(c)
  }

  lemma TopMoves(s: State, c: CallId)
    requires c < |s.calls| == |s.phases| && OnTop(s, c) && Active(s.phases[c]) && !s.phases[c].Waiting?
    ensures Enabled(s, NextLabel(s, c)) && !NextLabel(s, c).Begin?
  {
    hide OnTop;
  }

  lemma OwnerHolds(s: State, c: CallId) returns (o: CallId)
    requires Sized(s) && Reserved(s) && WaitersBlocked(s) && c < |s.calls| && s.phases[c].Waiting?
    ensures o < |s.calls| && s.calls[o].key == s.calls[c].key && Owning(s.phases[o])
  {
    o := s.origin[s.calls[c].key];
    hide Owning;
  }

  lemma StackIndex(s: State, o: CallId) returns (i: nat)
    requires Sized(s) && Stacked(s) && o < |s.calls| && Active(s.phases[o])
    ensures var t := s.calls[o].thread; t in s.stacks && i < |s.stacks[t]| && s.stacks[t][i] == o && StackFormed(s, t)
  {
    hide StackFormed, Active;
    var stack := Stack(s, s.calls[o].thread);
    assert o in stack;
    i :| 0 <= i < |stack| && stack[i] == o;
  }

  lemma StackTop(s: State, t: ThreadId, i: nat)
    requires Sized(s) && t in s.stacks && i < |s.stacks[t]| && StackFormed(s, t)
    ensures i < |s.stacks[t]| - 1 ==> s.stacks[t][i] < |s.phases| && s.phases[s.stacks[t][i]].Dispatching?
  {
  }

  lemma TopFormed(s: State, t: ThreadId)
    requires Sized(s) && t in s.stacks && StackFormed(s, t) && s.stacks[t] != []
    ensures var d := s.stacks[t][|s.stacks[t]| - 1]; d < |s.calls| && OnTop(s, d) && Active(s.phases[d])
  {
    var d := s.stacks[t][|s.stacks[t]| - 1];
    hide Active;
    assert s.calls[d].thread == t && Active(s.phases[d]);
    hide StackFormed;
  }

  lemma TopAbove(s: State, rank: Key -> nat, o: CallId) returns (d: CallId)
    requires Sized(s) && Stacked(s) && Ordered(s.calls, rank) && o < |s.calls| && Active(s.phases[o])
    ensures d < |s.calls| && OnTop(s, d) && Active(s.phases[d])
    ensures d == o || rank(s.calls[o].key) < rank(s.calls[d].key)
  {
    hide Stacked, StackFormed, Ordered, Active, OnTop;
    var t := s.calls[o].thread;
    var i := StackIndex(s, o);
    TopFormed(s, t);
    d := s.stacks[t][|s.stacks[t]| - 1];
    if i < |s.stacks[t]| - 1 {
      StackRises(s, rank, t, i, |s.stacks[t]| - 1);
    }
  }

  /** The owner a waiter waits for, and the call on top of the owner's thread. */
  lemma OwnerOfWaited(s: State, rank: Key -> nat, c: CallId) returns (o: CallId, d: CallId)
    requires Inv(s) && Ordered(s.calls, rank) && c < |s.calls| && s.phases[c].Waiting?
    ensures o < |s.calls| && s.calls[o].key == s.calls[c].key && Owning(s.phases[o])
    ensures d < |s.calls| && OnTop(s, d) && Active(s.phases[d])
    ensures d == o || rank(s.calls[o].key) < rank(s.calls[d].key)
  {
    hide Reserved, WaitersBlocked, TerminalsTraced, AnswersTraced, Traced, Stacked, Ordered, OnTop;
    o := OwnerHolds(s, c);
    d := TopAbove(s, rank, o);
  }

  /** Following a waiter to the owner it waits for, and the owner to the top of its thread, the keys only rise. */
  lemma {:induction false} FindMover(s: State, rank: Key -> nat, c: CallId) returns (l: Label)
    requires Inv(s) && Ordered(s.calls, rank) && c < |s.calls| && OnTop(s, c) && Active(s.phases[c])
    ensures Enabled(s, l) && !l.Begin?
    decreases MaxRank(s.calls, rank) - rank(s.calls[c].key)
  {
    InvSized(s, c);
    hide Inv, Enabled, OnTop, Ordered, Active;
    if !s.phases[c].Waiting? {
      TopMoves(s, c);
      return NextLabel(s, c);
    }
    var o, d := OwnerOfWaited(s, rank, c);
    if d == o {
      assert !s.phases[o].Waiting?;
      TopMoves(s, o);
      return NextLabel(s, o);
    }
    l := FindMover(s, rank, d);
  }

  ghost predicate Stuck(s: State) {
    forall l :: !Enabled(s, l)
  }

  /** Deadlock freedom: as long as some call is running, some running call can take a step. */
  lemma SomeoneMoves(s: State, rank: Key -> nat, c: CallId) returns (l: Label)
    requires Inv(s) && Ordered(s.calls, rank) && c < |s.calls| && Active(s.phases[c])
    ensures Enabled(s, l) && !l.Begin? && !Stuck(s)
  {
    var t := s.calls[c].thread;
    var d := ActiveTop(s, c);
    hide Inv, Enabled, OnTop;
    l := FindMover(s, rank, d);
  }

  lemma ActiveTop(s: State, c: CallId) returns (d: CallId)
    requires Inv(s) && c < |s.calls| && Active(s.phases[c])
    ensures d < |s.calls| && OnTop(s, d) && Active(s.phases[d])
  {
    hide Reserved, WaitersBlocked, TerminalsTraced, AnswersTraced, Traced;
    var t := s.calls[c].thread;
    assert c in Stack(s, t);
    assert StackFormed(s, t);
    d := Stack(s, t)[|Stack(s, t)| - 1];
  }

  /** Every call made by the host has run to its end and no call is left running. */
  ghost predicate Quiet(s: State)
    requires |s.phases| == |s.calls|
  {
    && (forall c | 0 <= c < |s.calls| :: !Active(s.phases[c]))
    && (forall c | 0 <= c < |s.calls| && s.calls[c].parent == None :: s.phases[c].Finished?)
  }

  lemma StuckMeansQuiet(s: State, rank: Key -> nat)
    requires Inv(s) && Ordered(s.calls, rank) && Stuck(s)
    ensures Quiet(s)
  {
    forall c | 0 <= c < |s.calls|
      ensures !Active(s.phases[c])
    {
      if Active(s.phases[c]) {
        var l := SomeoneMoves(s, rank, c);
        assert false;
      }
    }
    forall c | 0 <= c < |s.calls| && s.calls[c].parent == None
      ensures s.phases[c].Finished?
    {
      if s.phases[c].Idle? {
        RootMayBegin(s, c);
        assert false;
      }
    }
  }

  lemma RootMayBegin(s: State, c: CallId)
    requires Inv(s) && c < |s.calls| && s.calls[c].parent == None && s.phases[c].Idle?
             && forall d | 0 <= d < |s.calls| :: !Active(s.phases[d])
    ensures Enabled(s, Begin(c))
  {
    hide Reserved, WaitersBlocked, TerminalsTraced, AnswersTraced, Traced;
    if Stack(s, s.calls[c].thread) != [] {
      var d := StackedIsActive(s, s.calls[c].thread);
      assert false;
    }
  }

  lemma StackedIsActive(s: State, t: ThreadId) returns (d: CallId)
    requires Sized(s) && Stacked(s) && Stack(s, t) != []
    ensures d < |s.calls| && Active(s.phases[d])
  {
    assert StackFormed(s, t);
    d := s.stacks[t][0];
  }

  /** From every reachable state of ordered calls the run can be carried on until everything is quiet, and by
      `RunsAreBounded` every way of carrying it on gets there. */
  lemma {:induction false} RunsComplete(s: State, rank: Key -> nat) returns (ls: seq<Label>)
    requires Inv(s) && Ordered(s.calls, rank)
    ensures Runs(s, ls) && |After(s, ls).phases| == |After(s, ls).calls| && Quiet(After(s, ls))
    decreases Total(s.phases, |s.calls|)
  {
    InvSized(s, 0);
    if Stuck(s) {
      StuckMeansQuiet(s, rank);
      return [];
    }
    var l :| Enabled(s, l);
    hide Inv, Enabled, Next, Stuck, Quiet, Ordered, Total;
    NextInv(s, l);
    StepDecreases(s, l);
    var rest := RunsComplete(Next(s, l), rank);
    ls := [l] + rest;
    assert ls[1..] == rest;
  }
}
