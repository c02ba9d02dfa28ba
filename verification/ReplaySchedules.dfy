/** Building blocks for particular runs: a call that begins, reads the clock and takes its first look at the table. */
module ReplaySchedules {
  import opened Wrappers
  import opened ReplayCodec
  import opened ReplayTable
  import opened ReplayProtocol
  import opened ReplayInvariant

  function ReachDoor(c: CallId, now: Nanos): seq<Label> {
    [Begin(c), ReadClock(c, Reading(now))]
  }

  function CallAndLook(c: CallId, now: Nanos): seq<Label> {
    ReachDoor(c, now) + [Enter(c)]
  }

  function AtTheDoor(s: State, c: CallId, now: Nanos): State
    requires c < |s.calls| == |s.phases|
  {
    Moved(Started(s, c), c, Entering(now))
  }

  /** `t` is `s` after call `c` was pushed on its stack and went to phase `p`. */
  ghost predicate Pushed(s: State, t: State, c: CallId, p: Phase)
    requires c < |s.calls| == |s.phases|
  {
    && t.calls == s.calls && t.capacity == s.capacity
    && t.phases == s.phases[c := p]
    && t.stacks == s.stacks[s.calls[c].thread := Stack(s, s.calls[c].thread) + [c]]
  }

  lemma BeginStep(s: State, c: CallId)
    requires c < |s.calls| == |s.phases| && MayBegin(s, c) && Fallback(s.calls[c]).Some?
    ensures Enabled(s, Begin(c)) && Next(s, Begin(c)) == Started(s, c) && OnTop(Started(s, c), c)
  {
    hide Fallback;
  }

  lemma ReadStep(s: State, c: CallId, now: Nanos)
    requires c < |s.calls| == |s.phases| && s.phases[c].Prepared? && OnTop(s, c)
    ensures Enabled(s, ReadClock(c, Reading(now)))
    ensures Next(s, ReadClock(c, Reading(now))) == Moved(s, c, Entering(now))
  {
    hide OnTop, Fallback, MayBegin;
  }

  lemma DoorReached(s: State, c: CallId, now: Nanos)
    requires c < |s.calls| == |s.phases| && MayBegin(s, c) && Fallback(s.calls[c]).Some?
    ensures Runs(s, ReachDoor(c, now)) && After(s, ReachDoor(c, now)) == AtTheDoor(s, c, now)
    ensures OnTop(AtTheDoor(s, c, now), c)
    ensures Pushed(s, AtTheDoor(s, c, now), c, Entering(now))
    ensures AtTheDoor(s, c, now).entries == s.entries
  {
    hide Next, Enabled, MayBegin, OnTop, Fallback, Runs, After;
    var s1 := Started(s, c);
    var l := ReadClock(c, Reading(now));
    BeginStep(s, c);
    ReadStep(s1, c, now);
    OnTopFrame(s1, AtTheDoor(s, c, now), c);
    OneStep(s, Begin(c));
    OneStep(s1, l);
    RunsAppend(s, [Begin(c)], [l]);
    assert [Begin(c)] + [l] == ReachDoor(c, now);
  }

  lemma ReservedShape(s: State, c: CallId, initial: Nanos)
    requires c < |s.calls| == |s.phases| && OnTop(s, c) && DecisionFor(s, c).Reserve?
    ensures var s' := LookUp(s, c, initial);
            && s'.entries == s.entries[s.calls[c].key := InFlight(s.calls[c].digest, s.calls[c].thread)]
            && s'.phases == s.phases[c := Dispatching(initial)] && s'.stacks == s.stacks
            && s'.origin == s.origin[s.calls[c].key := c]
  {
    hide OnTop, Decide;
  }

  lemma WaitShape(s: State, c: CallId, initial: Nanos)
    requires c < |s.calls| == |s.phases| && OnTop(s, c) && DecisionFor(s, c).Wait?
    ensures LookUp(s, c, initial) == Moved(s, c, Waiting(initial))
  {
    hide OnTop, Decide;
  }

  lemma EnterFrame(s: State, c: CallId, now: Nanos)
    requires c < |s.calls| == |s.phases| && OnTop(s, c) && s.phases[c] == Entering(now)
    ensures OnTop(PrunedState(s, now), c) && Enabled(s, Enter(c))
    ensures Next(s, Enter(c)) == LookUp(PrunedState(s, now), c, now)
  {
    OnTopFrame(s, PrunedState(s, now), c);
    hide OnTop, LookUp;
  }

  /** A call at the door that finds its key absent and room in the table. */
  lemma EnterReserves(s: State, c: CallId, now: Nanos)
    requires c < |s.calls| == |s.phases| && OnTop(s, c) && s.phases[c] == Entering(now)
    requires var call := s.calls[c];
             Decide(Pruned(s.entries, now), s.capacity, call.key, call.digest, call.thread).Reserve?
    ensures Runs(s, [Enter(c)])
    ensures var s' := After(s, [Enter(c)]);
            && s'.calls == s.calls && s'.capacity == s.capacity && s'.stacks == s.stacks
            && s'.phases == s.phases[c := Dispatching(now)]
            && s'.entries == Pruned(s.entries, now)[s.calls[c].key := InFlight(s.calls[c].digest, s.calls[c].thread)]
            && s.calls[c].key in s'.origin && s'.origin[s.calls[c].key] == c
  {
    EnterFrame(s, c, now);
    OneStep(s, Enter(c));
    hide Decide, Pruned;
    ReservedShape(PrunedState(s, now), c, now);
    hide Next, Enabled, LookUp, OnTop;
  }

  /** A call at the door that finds its key in flight with its digest on another thread. */
  lemma EnterWaits(s: State, c: CallId, now: Nanos)
    requires c < |s.calls| == |s.phases| && OnTop(s, c) && s.phases[c] == Entering(now)
    requires var call := s.calls[c];
             Decide(Pruned(s.entries, now), s.capacity, call.key, call.digest, call.thread).Wait?
    ensures Runs(s, [Enter(c)])
    ensures var s' := After(s, [Enter(c)]);
            && s'.calls == s.calls && s'.capacity == s.capacity && s'.stacks == s.stacks
            && s'.phases == s.phases[c := Waiting(now)] && s'.entries == Pruned(s.entries, now)
  {
    EnterFrame(s, c, now);
    OneStep(s, Enter(c));
    hide Decide, Pruned;
    WaitShape(PrunedState(s, now), c, now);
    hide Next, Enabled, LookUp, OnTop;
  }

  lemma CallReserves(s: State, c: CallId, now: Nanos)
    requires c < |s.calls| == |s.phases| && MayBegin(s, c) && Fallback(s.calls[c]).Some?
    requires var call := s.calls[c];
             Decide(Pruned(s.entries, now), s.capacity, call.key, call.digest, call.thread).Reserve?
    ensures Runs(s, CallAndLook(c, now))
    ensures var s' := After(s, CallAndLook(c, now));
            && Pushed(s, s', c, Dispatching(now))
            && s'.entries == Pruned(s.entries, now)[s.calls[c].key := InFlight(s.calls[c].digest, s.calls[c].thread)]
            && s.calls[c].key in s'.origin && s'.origin[s.calls[c].key] == c
  {
    hide AtTheDoor, MayBegin, OnTop, Decide, Pruned, Runs, After, Fallback;
    DoorReached(s, c, now);
    EnterReserves(AtTheDoor(s, c, now), c, now);
    RunsAppend(s, ReachDoor(c, now), [Enter(c)]);
  }

  lemma HitShape(s: State, c: CallId, initial: Nanos, bytes: Bytes)
    requires c < |s.calls| == |s.phases| && OnTop(s, c) && DecisionFor(s, c) == Hit(bytes)
    ensures var s' := LookUp(s, c, initial);
            && s'.entries == s.entries && s'.phases == s.phases[c := Decoding(bytes)] && s'.stacks == s.stacks
            && s'.origin == s.origin
  {
    hide OnTop, Decide;
  }

  /** A call at the door that finds a result for its key and digest. */
  lemma EnterHits(s: State, c: CallId, now: Nanos, bytes: Bytes)
    requires c < |s.calls| == |s.phases| && OnTop(s, c) && s.phases[c] == Entering(now)
    requires var call := s.calls[c];
             Decide(Pruned(s.entries, now), s.capacity, call.key, call.digest, call.thread) == Hit(bytes)
    ensures Runs(s, [Enter(c)])
    ensures var s' := After(s, [Enter(c)]);
            && s'.calls == s.calls && s'.capacity == s.capacity && s'.stacks == s.stacks
            && s'.phases == s.phases[c := Decoding(bytes)] && s'.entries == Pruned(s.entries, now)
            && s'.origin == PrunedState(s, now).origin
  {
    EnterFrame(s, c, now);
    OneStep(s, Enter(c));
    hide Decide, Pruned;
    HitShape(PrunedState(s, now), c, now, bytes);
    hide Next, Enabled, LookUp, OnTop;
  }

  lemma CallWaits(s: State, c: CallId, now: Nanos)
    requires c < |s.calls| == |s.phases| && MayBegin(s, c) && Fallback(s.calls[c]).Some?
    requires var call := s.calls[c];
             Decide(Pruned(s.entries, now), s.capacity, call.key, call.digest, call.thread).Wait?
    ensures Runs(s, CallAndLook(c, now))
    ensures var s' := After(s, CallAndLook(c, now));
            Pushed(s, s', c, Waiting(now)) && s'.entries == Pruned(s.entries, now)
  {
    hide AtTheDoor, MayBegin, OnTop, Decide, Pruned, Runs, After, Fallback;
    DoorReached(s, c, now);
    EnterWaits(AtTheDoor(s, c, now), c, now);
    RunsAppend(s, ReachDoor(c, now), [Enter(c)]);
  }

  /** The end of a dispatch that gave `result`, as the owner takes it when nothing goes wrong. */
  function FinishLabels(c: CallId, now: Nanos): seq<Label> {
    [Complete(c, Reading(now))] + ([Publish(c)] + [Decode(c)])
  }

  /** What the owner's critical section makes of its own reservation. */
  lemma PublishesOwn(s: State, c: CallId, st: Settlement)
    requires c < |s.calls| == |s.phases| && OnTop(s, c) && s.phases[c] == Publishing(st) && !st.control
    requires HoldsReservation(s.entries, s.calls[c].key, s.calls[c].digest, s.calls[c].thread)
    ensures Enabled(s, Publish(c))
    ensures var t := Next(s, Publish(c));
            && t.calls == s.calls && |t.phases| == |s.phases| && t.phases[c] == Decoding(st.bytes) && OnTop(t, c)
            && t.entries == s.entries[s.calls[c].key := TerminalOf(s.calls[c].digest, st)] && t.origin == s.origin
  {
    hide TerminalOf, HoldsReservation;
  }

  lemma CompletesAt(s: State, c: CallId, now: Nanos, bytes: Bytes)
    requires c < |s.calls| == |s.phases| && OnTop(s, c) && s.phases[c] == Completing(now, bytes)
    ensures Enabled(s, Complete(c, Reading(now)))
    ensures Next(s, Complete(c, Reading(now))) == Moved(s, c, Publishing(Settlement(bytes, Some(now), false)))
  {
    hide OnTop, FallbackOf;
  }

  lemma DecodesAt(s: State, c: CallId, bytes: Bytes, result: Result)
    requires c < |s.calls| == |s.phases| && OnTop(s, c) && s.phases[c] == Decoding(bytes)
    requires DecodeTerminal(bytes, s.calls[c].codec, s.calls[c].requestId) == Some(result)
    ensures Enabled(s, Decode(c))
    ensures var t := Next(s, Decode(c));
            && |t.phases| == |s.phases| && t.phases[c] == Finished(Returned(result))
            && t.calls == s.calls && t.entries == s.entries && t.origin == s.origin
  {
    hide OnTop, FallbackOf, DecodeTerminal, Popped;
  }

  /** An owner whose dispatch gave a result that decodes returns it. */
  lemma OwnerFinishes(s: State, c: CallId, now: Nanos, bytes: Bytes, result: Result)
    requires c < |s.calls| == |s.phases| && OnTop(s, c) && s.phases[c] == Completing(now, bytes)
    requires HoldsReservation(s.entries, s.calls[c].key, s.calls[c].digest, s.calls[c].thread)
    requires DecodeTerminal(bytes, s.calls[c].codec, s.calls[c].requestId) == Some(result)
    ensures Runs(s, FinishLabels(c, now))
    ensures var t := After(s, FinishLabels(c, now));
            && |t.phases| == |s.phases| && t.phases[c] == Finished(Returned(result)) && t.origin == s.origin
            && t.entries ==
               s.entries[s.calls[c].key := TerminalOf(s.calls[c].digest, Settlement(bytes, Some(now), false))]
  {
    hide Next, Enabled, OnTop, DecodeTerminal, HoldsReservation, TerminalOf, Runs, After;
    var st := Settlement(bytes, Some(now), false);
    var s1 := Moved(s, c, Publishing(st));
    CompletesAt(s, c, now, bytes);
    OnTopFrame(s, s1, c);
    PublishesOwn(s1, c, st);
    var s2 := Next(s1, Publish(c));
    DecodesAt(s2, c, bytes, result);
    OneStep(s, Complete(c, Reading(now)));
    OneStep(s1, Publish(c));
    OneStep(s2, Decode(c));
    RunsAppend(s1, [Publish(c)], [Decode(c)]);
    RunsAppend(s, [Complete(c, Reading(now))], [Publish(c)] + [Decode(c)]);
  }

  /** A call that finds its result in the table, from its beginning to its return. */
  function HitLabels(c: CallId, now: Nanos): seq<Label> {
    ReachDoor(c, now) + ([Enter(c)] + [Decode(c)])
  }

  lemma CallReturns(s: State, c: CallId, now: Nanos, bytes: Bytes, result: Result)
    requires c < |s.calls| == |s.phases| && MayBegin(s, c) && Fallback(s.calls[c]).Some?
    requires var call := s.calls[c];
             && Decide(Pruned(s.entries, now), s.capacity, call.key, call.digest, call.thread) == Hit(bytes)
             && DecodeTerminal(bytes, call.codec, call.requestId) == Some(result)
    ensures Runs(s, HitLabels(c, now))
    ensures var t := After(s, HitLabels(c, now));
            && |t.phases| == |s.phases| && t.phases[c] == Finished(Returned(result))
            && t.entries == Pruned(s.entries, now) && t.origin == PrunedState(s, now).origin
  {
    hide AtTheDoor, MayBegin, Decide, Pruned, Runs, After, Fallback, DecodeTerminal, PrunedState, Next, Enabled;
    DoorReached(s, c, now);
    var s1 := AtTheDoor(s, c, now);
    assert PrunedState(s, now).origin == PrunedState(s1, now).origin by { DoorKeepsOrigin(s, c, now); }
    EnterHits(s1, c, now, bytes);
    var s2 := After(s1, [Enter(c)]);
    assert OnTop(s2, c);
    hide OnTop;
    DecodesAt(s2, c, bytes, result);
    OneStep(s2, Decode(c));
    RunsAppend(s1, [Enter(c)], [Decode(c)]);
    RunsAppend(s, ReachDoor(c, now), [Enter(c)] + [Decode(c)]);
  }

  lemma DoorKeepsOrigin(s: State, c: CallId, now: Nanos)
    requires c < |s.calls| == |s.phases|
    ensures PrunedState(s, now).origin == PrunedState(AtTheDoor(s, c, now), now).origin
  {
  }
}
