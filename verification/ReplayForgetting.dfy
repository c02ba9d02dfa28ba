/** Two things the coordinator does not promise, each with a run that shows it and the exact condition under which it
    holds: that a waiter never dispatches, and that a result is kept for the whole window after its publication. */
module ReplayForgetting {
  import opened Wrappers
  import opened ReplayCodec
  import opened ReplayTable
  import opened ReplayProtocol
  import opened ReplayInvariant
  import opened ReplayRefinement
  import opened ReplayHistory
  import opened ReplayProgress
  import opened ReplaySchedules

  // ---------------------------------------------------------------- waiters

  /** The call has reserved, been answered or failed: it will not look at the table again. */
  predicate Past(p: Phase) { Owning(p) || p.Decoding? || p.Finished? }

  lemma PastByWeight(p: Phase, n: nat)
    ensures Past(p) <==> Weight(p, n) <= n + 6
  {
  }

  lemma PastForGood(s: State, l: Label, o: CallId)
    requires Enabled(s, l) && o < |s.phases| && Past(s.phases[o])
    ensures Past(Next(s, l).phases[o])
    ensures !((l.Enter? || l.Resume?) && l.c == o)
  {
    hide OnTop, MayBegin, Next;
    if l.Publish? {
      PublishPhases(s, l);
      var p := Next(s, l).phases[l.c];
      PastByWeight(p, |s.calls|);
    } else {
      StepPhase(s, l);
      PastByWeight(s.phases[l.c], |s.calls|);
      PastByWeight(Next(s, l).phases[l.c], |s.calls|);
    }
  }

  lemma OriginIsPast(s: State, k: Key)
    requires Inv(s) && k in s.entries
    ensures k in s.origin && s.origin[k] < |s.phases| && Past(s.phases[s.origin[k]])
  {
    hide WaitersBlocked, Stacked, Fallback, FallbackOf, DecodeTerminal, DecodeOrFallback, TerminalShape;
    var o := s.origin[k];
    if s.entries[k].InFlight? {
      assert Owning(s.phases[o]);
    } else {
      assert PublishedBy(s, o, s.entries[k].bytes);
      assert PhaseTraced(s, o);
    }
  }

  /** The entry of key `k` is the one that call `o` made. */
  ghost predicate MadeBy(s: State, k: Key, o: CallId) {
    k in s.entries && k in s.origin && s.origin[k] == o
  }

  lemma {:induction false} NeverMadeAgain(s: State, ls: seq<Label>, k: Key, o: CallId)
    requires Inv(s) && Runs(s, ls) && o < |s.phases| && Past(s.phases[o]) && !MadeBy(s, k, o)
    ensures !MadeBy(After(s, ls), k, o)
    decreases |ls|
  {
    hide Next, Enabled, Inv, Dispatches, Removes, Kept, Past;
    if ls != [] {
      NextInv(s, ls[0]);
      PastForGood(s, ls[0], o);
      StepEntry(s, ls[0], k);
      if Dispatches(s, ls[0], k) {
        DispatcherLooks(s, ls[0], k);
      }
      NeverMadeAgain(Next(s, ls[0]), ls[1..], k, o);
    }
  }

  lemma DispatcherLooks(s: State, l: Label, k: Key)
    requires Enabled(s, l) && Dispatches(s, l, k)
    ensures l.Enter? || l.Resume?
  {
  }

  /** An entry lasts exactly as long as no prune pass removes it: the call that made it never makes another. */
  lemma {:induction false} SameIncarnation(s: State, ls: seq<Label>, k: Key)
    requires Inv(s) && Runs(s, ls) && k in s.entries
    ensures k in s.origin && (MadeBy(After(s, ls), k, s.origin[k]) <==> Removed(s, ls, k) == 0)
    decreases |ls|
  {
    hide Next, Enabled, Inv, Dispatches, Removes, Kept, Past;
    OriginIsPast(s, k);
    if Removed(s, ls, k) == 0 {
      IncarnationIsFixed(s, ls, k);
    } else {
      var s1 := Next(s, ls[0]);
      NextInv(s, ls[0]);
      PastForGood(s, ls[0], s.origin[k]);
      StepEntry(s, ls[0], k);
      if Dispatches(s, ls[0], k) {
        DispatcherLooks(s, ls[0], k);
      }
      if Removes(s, ls[0], k) {
        NeverMadeAgain(s1, ls[1..], k, s.origin[k]);
      } else {
        SameIncarnation(s1, ls[1..], k);
      }
    }
  }

  /** Whether the passes after a publication leave the terminal in the table. */
  ghost predicate KeptBy(st: Settlement, passes: seq<Nanos>) {
    st.floor.None? || passes == [] || Retained(Max(st.floor.value, passes[0]), passes[1..])
  }

  lemma PublishingOwns(st: Settlement)
    ensures Owning(Publishing(st))
  {
  }

  /** The entry right after a publication. */
  lemma FreshlyPublished(s: State, o: CallId, st: Settlement, t: State)
    requires Inv(s) && o < |s.calls| == |s.phases| && s.phases[o] == Publishing(st)
    requires Enabled(s, Publish(o)) && t == Next(s, Publish(o))
    ensures var k := s.calls[o].key;
            Inv(t) && t.calls == s.calls && MadeBy(t, k, o) && t.entries[k] == TerminalOf(s.calls[o].digest, st)
  {
    hide Inv, Owning, TerminalOf, PublishStep, OnTop, Next, Enabled;
    PublishIs(s, o, st);
    NextInv(s, Publish(o));
    PublisherOwns(s, o);
    assert Owning(s.phases[o]) by { PublishingOwns(st); }
    OwnsOrigin(s, o);
    assert HoldsReservation(s.entries, s.calls[o].key, s.calls[o].digest, s.calls[o].thread);
    PublishEntries(s, o, st);
    PublishKeepsOrigin(s, o, st);
  }

  lemma TerminalKept(s: State, ls: seq<Label>, k: Key, digest: Digest, st: Settlement)
    requires Inv(s) && Runs(s, ls) && k in s.entries && s.entries[k] == TerminalOf(digest, st)
    ensures Removed(s, ls, k) == 0 <==> KeptBy(st, Passes(s, ls))
  {
    hide Inv, Runs, Removed, Passes, Retained;
    if st.floor.None? {
      UnprunableForever(s, ls, k);
    } else {
      PendingRetention(s, ls, k);
    }
  }

  /** What a call meets that looks for key `k` after `ls`, where its own terminal was in the table before. */
  lemma MeetsAfter(s: State, ls: seq<Label>, c: CallId, o: CallId, st: Settlement)
    requires Inv(s) && Runs(s, ls) && c < |s.calls| && MadeBy(s, s.calls[c].key, o)
    requires s.entries[s.calls[c].key] == TerminalOf(s.calls[c].digest, st)
    ensures var k := s.calls[c].key;
            var t := After(s, ls);
            && t.calls == s.calls && t.capacity == s.capacity
            && (MadeBy(t, k, o) <==> KeptBy(st, Passes(s, ls)))
            && (KeptBy(st, Passes(s, ls)) ==> DecisionFor(t, c) == Hit(st.bytes))
            && (DecisionFor(t, c).Reserve? <==>
                  Removed(s, ls, k) == Dispatched(s, ls, k) + 1 && |t.entries| != s.capacity)
  {
    var k := s.calls[c].key;
    assert k in s.entries && k in s.origin && s.origin[k] == o;
    hide *;
    RunInv(s, ls);
    TerminalFields(s.calls[c].digest, st);
    TerminalKept(s, ls, k, s.calls[c].digest, st);
    SameIncarnation(s, ls, k);
    OneDispatchPerIncarnation(s, ls, k);
    CountOf(k in s.entries);
    CountOf(k in After(s, ls).entries);
    if Removed(s, ls, k) == 0 {
      IncarnationIsFixed(s, ls, k);
    }
    DecisionMet(After(s, ls), c);
  }

  /** When a waiter shares.  From the state in which call `c` waits, `o` is the call it waits for; `o` publishes after
      `a`, and `c` looks again after `b`.  It finds what `o` published exactly if that is unprunable, or no pass came
      after the publication, or no later pass reached the window past the anchor that the first one set.  Otherwise it
      meets what is there by then, and it dispatches exactly if the key has been dispatched once less than removed,
      and there is room. */
  lemma WaiterSharesExactly(
      s: State, c: CallId, o: CallId, a: seq<Label>, st: Settlement, t: State, b: seq<Label>)
    requires Inv(s) && c < |s.calls| && s.phases[c].Waiting? && OriginOf(s, s.calls[c].key) == o
    requires Runs(s, a) && o < |After(s, a).phases| && After(s, a).phases[o] == Publishing(st)
    requires Runs(s, a + [Publish(o)]) && t == After(s, a + [Publish(o)]) && Runs(t, b)
    ensures var k := s.calls[c].key;
            var u := After(t, b);
            && u.calls == s.calls && u.capacity == s.capacity
            && (MadeBy(u, k, o) <==> KeptBy(st, Passes(t, b)))
            && (KeptBy(st, Passes(t, b)) ==> DecisionFor(u, c) == Hit(st.bytes))
            && (DecisionFor(u, c).Reserve? <==>
                  Removed(t, b, k) == Dispatched(t, b, k) + 1 && |u.entries| != s.capacity)
  {
    hide *;
    var k := s.calls[c].key;
    WaitsForAnother(s, c);
    OriginOwns(s, k);
    RunInv(s, a);
    InvSized(After(s, a), o);
    RunsSplit(s, a, [Publish(o)]);
    OneStep(After(s, a), Publish(o));
    FreshlyPublished(After(s, a), o, st, t);
    MeetsAfter(t, b, c, o, st);
  }

  lemma CountOf(b: bool)
    ensures Count(b) == if b then 1 else 0
  {
  }

  lemma TerminalFields(digest: Digest, st: Settlement)
    ensures var e := TerminalOf(digest, st); e.Terminal? && e.digest == digest && e.bytes == st.bytes
  {
  }

  lemma OriginOwns(s: State, k: Key)
    requires Inv(s) && k in s.entries && s.entries[k].InFlight?
    ensures var o := OriginOf(s, k);
            k in s.origin && o == s.origin[k] && o < |s.calls| && s.calls[o].key == k
                && s.entries[k].digest == s.calls[o].digest
  {
    hide WaitersBlocked, TerminalsTraced, AnswersTraced, Traced, Stacked, Owning;
  }

  lemma DecisionMet(s: State, c: CallId)
    requires c < |s.calls|
    ensures var k := s.calls[c].key;
            && (DecisionFor(s, c).Reserve? <==> k !in s.entries && |s.entries| != s.capacity)
            && (k in s.entries && s.entries[k].Terminal? && s.entries[k].digest == s.calls[c].digest ==>
                  DecisionFor(s, c) == Hit(s.entries[k].bytes))
  {
  }

  // ---------------------------------------------------------------- retention from publication

  /** Every clock reading of the run is at least `published`. */
  ghost predicate ReadsFrom(ls: seq<Label>, published: Nanos) {
    forall i | 0 <= i < |ls| && ls[i].ReadClock? && ls[i].sample.Reading? :: ls[i].sample.n >= published
  }

  ghost predicate InWindow(passes: seq<Nanos>, published: Nanos) {
    forall i | 0 <= i < |passes| :: passes[i] - published < RETENTION_NS
  }

  /** Counted from `published`, the entry of key `k` is kept for the whole window: no run whose readings start there
      removes it by passes within the window. */
  ghost predicate KeptFrom(s: State, k: Key, published: Nanos) {
    forall ls | Runs(s, ls) && ReadsFrom(ls, published) && InWindow(Passes(s, ls), published) :: Removed(s, ls, k) == 0
  }

  /** A first pass with this clock value leaves less than the window after `published`. */
  predicate Early(floor: Nanos, published: Nanos, now: Nanos) {
    floor < published && now < published && Max(floor, now) + RETENTION_NS <= MAX_CLOCK_NS
  }

  /** A call has read its clock early and is yet to take the lock for its pass. */
  ghost predicate EarlyAtDoor(s: State, floor: Nanos, published: Nanos) {
    exists c | 0 <= c < |s.phases| :: s.phases[c].Entering? && Early(floor, published, s.phases[c].initial)
  }

  lemma LocalEntering(s: State, l: Label)
    requires Enabled(s, l) && !l.Enter? && !l.Resume? && !l.Publish? && Next(s, l).phases[l.c].Entering?
    ensures l.ReadClock? && l.sample == Reading(Next(s, l).phases[l.c].initial)
  {
    hide DispatchBytes, Settle, DecodeOrFallback, Fallback, FallbackOf, Popped, OnTop, MayBegin, LookUp, Stack, Finish;
    hide InitialClock, Pruned, PublishStep;
    if l.ReadClock? {
      ReadGives(l.sample);
    }
  }

  lemma OwnEntering(s: State, l: Label)
    requires Enabled(s, l) && Next(s, l).phases[l.c].Entering?
    ensures l.ReadClock? && l.sample == Reading(Next(s, l).phases[l.c].initial)
  {
    hide OnTop, MayBegin, LookUp, Pruned, PublishStep, Fallback, Weight;
    match l {
      case Enter(c) =>
        EnterFrame(s, c, s.phases[c].initial);
        LookShape(PrunedState(s, s.phases[c].initial), c, s.phases[c].initial);
        hide Next;
      case Resume(c) => LookShape(s, c, s.phases[c].initial);
      case Publish(c) =>
        PublishPhases(s, l);
        LightIsNotEntering(Next(s, l).phases[c], |s.calls|);
        hide Next;
      case _ =>
        LocalEntering(s, l);
        hide Next;
    }
  }

  lemma LightIsNotEntering(p: Phase, n: nat)
    ensures Weight(p, n) <= 2 ==> !p.Entering?
  {
  }

  lemma ReadGives(sample: ClockSample)
    ensures InitialClock(sample).Some? ==> sample == Reading(InitialClock(sample).value)
  {
  }

  lemma DoorsStay(s: State, l: Label, floor: Nanos, published: Nanos)
    requires Enabled(s, l) && !EarlyAtDoor(s, floor, published) && ReadsFrom([l], published)
    ensures !EarlyAtDoor(Next(s, l), floor, published)
  {
    var t := Next(s, l);
    assert [l][0] == l;
    OtherPhases(s, l);
    hide Next, Enabled;
    forall c | 0 <= c < |t.phases| && t.phases[c].Entering?
      ensures !Early(floor, published, t.phases[c].initial)
    {
      if c == l.c {
        OwnEntering(s, l);
      } else {
        assert t.phases[c] == s.phases[c];
      }
    }
  }

  lemma {:induction false} PassesNotEarly(s: State, ls: seq<Label>, floor: Nanos, published: Nanos)
    requires Runs(s, ls) && !EarlyAtDoor(s, floor, published) && ReadsFrom(ls, published)
    ensures forall p | p in Passes(s, ls) :: !Early(floor, published, p)
    decreases |ls|
  {
    if ls != [] {
      var l := ls[0];
      assert ReadsFrom([l], published) && ReadsFrom(ls[1..], published);
      assert l.Enter? ==> s.phases[l.c].Entering? && l.c < |s.phases|;
      DoorsStay(s, l, floor, published);
      hide Next, Enabled, ReadsFrom, Early;
      PassesNotEarly(Next(s, l), ls[1..], floor, published);
    }
  }

  lemma KeptUnlessEarly(floor: Nanos, published: Nanos, ps: seq<Nanos>)
    requires ps != [] && InWindow(ps, published) && !Early(floor, published, ps[0])
    ensures Retained(Max(floor, ps[0]), ps[1..])
  {
    forall i | 0 <= i < |ps[1..]|
      ensures ps[1..][i] - Max(floor, ps[0]) < RETENTION_NS
    {
      assert ps[1..][i] == ps[i + 1];
    }
  }

  lemma NoEarlyDoorKeeps(s: State, k: Key, published: Nanos)
    requires Inv(s) && k in s.entries && PendingTerminal(s.entries[k])
    requires !EarlyAtDoor(s, s.entries[k].floor.value, published)
    ensures KeptFrom(s, k, published)
  {
    var floor := s.entries[k].floor.value;
    hide Inv, Runs, ReadsFrom, Passes, Removed, EarlyAtDoor, InWindow, Early, Retained;
    forall ls | Runs(s, ls) && ReadsFrom(ls, published) && InWindow(Passes(s, ls), published)
      ensures Removed(s, ls, k) == 0
    {
      PendingRetention(s, ls, k);
      var ps := Passes(s, ls);
      if ps != [] {
        PassesNotEarly(s, ls, floor, published);
        KeptUnlessEarly(floor, published, ps);
      }
    }
  }

  /** A call that has not read its clock yet and can still make its pass. */
  ghost predicate MayStillPass(s: State, d: CallId) {
    && d < |s.calls| == |s.phases|
    && ((MayBegin(s, d) && Fallback(s.calls[d]).Some?) || (s.phases[d].Prepared? && OnTop(s, d)))
  }

  lemma {:induction false} PassesAppend(s: State, a: seq<Label>, b: seq<Label>)
    requires Runs(s, a) && Runs(After(s, a), b) && Runs(s, a + b)
    ensures Passes(s, a + b) == Passes(s, a) + Passes(After(s, a), b)
    decreases |a|
  {
    hide Next, Enabled;
    if a == [] {
      assert a + b == b;
    } else {
      assert (a + b)[1..] == a[1..] + b;
      PassesAppend(Next(s, a[0]), a[1..], b);
    }
  }

  lemma PassesOfOne(s: State, l: Label)
    requires Enabled(s, l)
    ensures Runs(s, [l]) && Passes(s, [l]) == if l.Enter? then [s.phases[l.c].initial] else []
  {
    OneStep(s, l);
    assert [l][1..] == [];
    hide Next;
  }

  /** The steps that bring a call to the door with clock value `now`. */
  lemma ComesToDoor(s: State, d: CallId, now: Nanos) returns (ls: seq<Label>)
    requires MayStillPass(s, d)
    ensures Runs(s, ls) && Passes(s, ls) == [] && ReadsFrom(ls, now)
    ensures var t := After(s, ls); d < |t.calls| == |t.phases| && t.phases[d] == Entering(now) && OnTop(t, d)
  {
    var l := ReadClock(d, Reading(now));
    if s.phases[d].Prepared? && OnTop(s, d) {
      ls := [l];
      ReadStep(s, d, now);
      OneStep(s, l);
      PassesOfOne(s, l);
      OnTopFrame(s, Moved(s, d, Entering(now)), d);
      hide Next, Enabled, OnTop, MayBegin, Fallback, Runs, Passes;
    } else {
      ls := ReachDoor(d, now);
      DoorReached(s, d, now);
      BeginStep(s, d);
      ReadStep(Started(s, d), d, now);
      PassesOfOne(s, Begin(d));
      PassesOfOne(Started(s, d), l);
      OneStep(s, Begin(d));
      hide Next, Enabled, OnTop, MayBegin, Fallback, Runs, Passes, After;
      assert [Begin(d)] + [l] == ls;
      PassesAppend(s, [Begin(d)], [l]);
    }
  }

  lemma MakesItsPass(s: State, d: CallId, now: Nanos) returns (ls: seq<Label>)
    requires MayStillPass(s, d)
    ensures Runs(s, ls) && Passes(s, ls) == [now] && ReadsFrom(ls, now)
  {
    hide MayStillPass, OnTop, Runs, After, Passes;
    var a := ComesToDoor(s, d, now);
    var t := After(s, a);
    EnterFrame(t, d, now);
    PassesOfOne(t, Enter(d));
    hide Enabled, Next;
    ls := a + [Enter(d)];
    RunsAppend(s, a, [Enter(d)]);
    PassesAppend(s, a, [Enter(d)]);
  }

  lemma EnteringOnTop(s: State, c: CallId)
    requires Inv(s) && c < |s.calls| && s.phases[c].Entering?
    ensures OnTop(s, c)
  {
    hide Reserved, WaitersBlocked, TerminalsTraced, AnswersTraced, Traced, StackFormed;
    assert Active(s.phases[c]);
    var i := StackIndex(s, c);
    StackTop(s, s.calls[c].thread, i);
  }

  /** A pass of one call leaves another that can still make its pass able to. */
  lemma StillPasses(s: State, c: CallId, d: CallId)
    requires Enabled(s, Enter(c)) && MayStillPass(s, d)
    ensures MayStillPass(Next(s, Enter(c)), d)
  {
    var l := Enter(c);
    var s1 := PrunedState(s, s.phases[c].initial);
    OnTopFrame(s, s1, c);
    assert s.calls[c].thread != s.calls[d].thread;
    LookStacks(s1, c, s.phases[c].initial, s.calls[d].thread);
    OtherPhases(s, l);
    assert Next(s, l) == LookUp(s1, c, s.phases[c].initial);
    assert Stack(s1, s.calls[d].thread) == Stack(s, s.calls[d].thread);
    hide LookUp, Next, Fallback, Pruned;
  }

  /** Two passes of different calls, the first by a call at the door. */
  lemma PassesTwice(s: State, c: CallId, d: CallId, now: Nanos) returns (ls: seq<Label>)
    requires Inv(s) && c < |s.phases| && s.phases[c].Entering? && MayStillPass(s, d)
    ensures Runs(s, ls) && Passes(s, ls) == [s.phases[c].initial, now] && ReadsFrom(ls, now)
  {
    hide Inv, MayStillPass, OnTop, Next, Enabled, Runs, After, Passes, PrunedState, LookUp;
    InvSized(s, c);
    EnteringOnTop(s, c);
    EnterFrame(s, c, s.phases[c].initial);
    StillPasses(s, c, d);
    PassesOfOne(s, Enter(c));
    OneStep(s, Enter(c));
    var tail := MakesItsPass(Next(s, Enter(c)), d, now);
    ls := [Enter(c)] + tail;
    RunsAppend(s, [Enter(c)], tail);
    PassesAppend(s, [Enter(c)], tail);
  }

  lemma LosesToTwoPasses(floor: Nanos, published: Nanos, first: Nanos) returns (now: Nanos)
    requires Early(floor, published, first)
    ensures now >= published && InWindow([first, now], published) && !Retained(Max(floor, first), [now])
  {
    var anchor := Max(floor, first);
    now := if anchor + RETENTION_NS < published then published else anchor + RETENTION_NS;
    assert [now][0] == now;
  }

  lemma EarlyDoorLoses(s: State, k: Key, published: Nanos, c: CallId, d: CallId)
    requires Inv(s) && k in s.entries && PendingTerminal(s.entries[k])
    requires c < |s.phases| && s.phases[c].Entering? && MayStillPass(s, d)
    requires Early(s.entries[k].floor.value, published, s.phases[c].initial)
    ensures !KeptFrom(s, k, published)
  {
    var first := s.phases[c].initial;
    var now := LosesToTwoPasses(s.entries[k].floor.value, published, first);
    hide Inv, MayStillPass, Runs, Passes, Retained, InWindow, Removed;
    var ls := PassesTwice(s, c, d, now);
    PendingRetention(s, ls, k);
    assert [first, now][1..] == [now];
  }

  /** Exactly when the window counted from the publication is kept.  Call `o` publishes a completed result at clock
      value `published`, and call `d` can still make a pass.  The result is kept for the whole window if and only if
      no call is at the door with an earlier reading than `published`, when the completion sample is earlier too and
      the clock can still reach the end of the window past the later of both. */
  lemma RetainedFromPublication(s: State, o: CallId, st: Settlement, t: State, published: Nanos, d: CallId)
    requires Inv(s) && o < |s.calls| == |s.phases| && s.phases[o] == Publishing(st) && st.floor.Some?
    requires Enabled(s, Publish(o)) && t == Next(s, Publish(o))
    requires MayStillPass(t, d)
    ensures KeptFrom(t, s.calls[o].key, published) <==> !EarlyAtDoor(t, st.floor.value, published)
  {
    var k := s.calls[o].key;
    hide Inv, Enabled, Next, MayStillPass, KeptFrom, Early, OnTop;
    FreshlyPublished(s, o, st, t);
    if EarlyAtDoor(t, st.floor.value, published) {
      var c :| 0 <= c < |t.phases| && t.phases[c].Entering? && Early(st.floor.value, published, t.phases[c].initial);
      EarlyDoorLoses(t, k, published, c, d);
    } else {
      NoEarlyDoorKeeps(t, k, published);
    }
  }

  // ---------------------------------------------------------------- a run that shows both

  /** Four calls on four threads: an owner, a second call with the same key and digest, and two with keys of their
      own. */
  ghost predicate Four(calls: seq<Call>) {
    && |calls| == 4
    && (forall i | 0 <= i < 4 :: calls[i].parent == None && Fallback(calls[i]).Some?)
    && (forall i, j | 0 <= i < j < 4 :: calls[i].thread != calls[j].thread)
    && calls[0].key == calls[1].key && calls[0].digest == calls[1].digest
    && calls[2].key != calls[0].key && calls[3].key != calls[0].key && calls[3].key != calls[2].key
  }

  ghost predicate At(s: State, calls: seq<Call>, phases: seq<Phase>, entries: map<Key, Entry>, started: nat) {
    && Four(calls) && s.calls == calls && s.capacity >= 3
    && s.phases == phases && |phases| == 4 && s.entries == entries
    && forall i | 0 <= i < 4 :: Stack(s, calls[i].thread) == if i < started then [i] else []
  }

  function Owned(calls: seq<Call>, i: nat): Entry
    requires i < |calls|
  {
    InFlight(calls[i].digest, calls[i].thread)
  }

  lemma PushedAt(s: State, s': State, calls: seq<Call>, phases: seq<Phase>, entries: map<Key, Entry>, c: nat, p: Phase)
    requires At(s, calls, phases, entries, c) && c < 4 && Pushed(s, s', c, p)
    ensures At(s', calls, phases[c := p], s'.entries, c + 1)
  {
    forall i | 0 <= i < 4
      ensures Stack(s', calls[i].thread) == if i < c + 1 then [i] else []
    {
      assert i != c ==> calls[i].thread != calls[c].thread;
    }
  }

  lemma Movable(s: State, calls: seq<Call>, phases: seq<Phase>, entries: map<Key, Entry>, started: nat, c: nat)
    requires At(s, calls, phases, entries, started) && c < 4
    ensures c < started ==> OnTop(s, c)
    ensures c >= started && phases[c].Idle? ==> MayBegin(s, c)
  {
  }

  /** The owner reserves, the second call waits, the dispatch ends and completes at clock zero; then the other two calls
      read the clock, at zero and at the end of the window, and stop before the lock. */
  function UntilPublication(): seq<Label> {
    CallAndLook(0, 0) + CallAndLook(1, 0) + [EndDispatch(0, Raises), Complete(0, Reading(0))]
    + (ReachDoor(2, 0) + ReachDoor(3, RETENTION_NS))
  }

  function FromPublication(): seq<Label> {
    [Publish(0), Enter(2), Enter(3), Resume(1)]
  }

  function Published(calls: seq<Call>): Settlement
    requires |calls| > 0
  {
    Settlement(FallbackOf(calls[0]), Some(0), false)
  }

  function PhasesAtPublication(calls: seq<Call>): seq<Phase>
    requires |calls| > 0
  {
    [Publishing(Published(calls)), Waiting(0), Entering(0), Entering(RETENTION_NS)]
  }

  lemma OwnerReserves(s: State, calls: seq<Call>)
    requires |calls| == 4 && At(s, calls, [Idle, Idle, Idle, Idle], map[], 0)
    ensures Runs(s, CallAndLook(0, 0))
    ensures At(After(s, CallAndLook(0, 0)), calls, [Dispatching(0), Idle, Idle, Idle],
            map[calls[0].key := Owned(calls, 0)], 1)
  {
    Movable(s, calls, s.phases, map[], 0, 0);
    assert Pruned(map[], 0) == map[];
    assert s.calls == calls && s.entries == map[] && Fallback(calls[0]).Some?;
    assert Decide(map[], s.capacity, calls[0].key, calls[0].digest, calls[0].thread).Reserve?;
    hide At, Four, Runs, After, MayBegin, Pruned, Fallback, Decide;
    CallReserves(s, 0, 0);
    PushedAt(s, After(s, CallAndLook(0, 0)), calls, [Idle, Idle, Idle, Idle], map[], 0, Dispatching(0));
  }

  lemma SecondWaits(s: State, calls: seq<Call>)
    requires |calls| == 4
    requires At(s, calls, [Dispatching(0), Idle, Idle, Idle], map[calls[0].key := Owned(calls, 0)], 1)
    ensures Runs(s, CallAndLook(1, 0))
    ensures At(After(s, CallAndLook(1, 0)), calls, [Dispatching(0), Waiting(0), Idle, Idle],
            map[calls[0].key := Owned(calls, 0)], 2)
  {
    var m := map[calls[0].key := Owned(calls, 0)];
    Movable(s, calls, s.phases, m, 1, 1);
    assert Pruned(m, 0) == m;
    assert calls[0].thread != calls[1].thread;
    CallWaits(s, 1, 0);
    hide At, Runs, After, MayBegin, Decide, Pruned, Fallback;
    PushedAt(s, After(s, CallAndLook(1, 0)), calls, [Dispatching(0), Idle, Idle, Idle], m, 1, Waiting(0));
  }

  /** The phase of a call on top of its stack changes, and nothing else. */
  lemma MovedAt(
      s: State, calls: seq<Call>, phases: seq<Phase>, entries: map<Key, Entry>, started: nat,
      c: nat, p: Phase)
    requires At(s, calls, phases, entries, started) && c < 4
    ensures At(Moved(s, c, p), calls, phases[c := p], entries, started)
  {
  }

  lemma DispatchEnds(s: State, calls: seq<Call>)
    requires |calls| == 4
    requires At(s, calls, [Dispatching(0), Waiting(0), Idle, Idle], map[calls[0].key := Owned(calls, 0)], 2)
    ensures var ls := [EndDispatch(0, Raises), Complete(0, Reading(0))];
            Runs(s, ls) &&
            At(After(s, ls), calls, [Publishing(Published(calls)), Waiting(0), Idle, Idle],
                map[calls[0].key := Owned(calls, 0)], 2)
  {
    var m := map[calls[0].key := Owned(calls, 0)];
    var p1 := Completing(0, FallbackOf(calls[0]));
    var p2 := Publishing(Published(calls));
    var s1 := Moved(s, 0, p1);
    Movable(s, calls, s.phases, m, 2, 0);
    MovedAt(s, calls, s.phases, m, 2, 0, p1);
    Movable(s1, calls, s1.phases, m, 2, 0);
    MovedAt(s1, calls, s1.phases, m, 2, 0, p2);
    hide OnTop, MayBegin, Fallback, FallbackOf;
    assert Enabled(s, EndDispatch(0, Raises)) && Next(s, EndDispatch(0, Raises)) == s1;
    assert Enabled(s1, Complete(0, Reading(0))) && Next(s1, Complete(0, Reading(0))) == Moved(s1, 0, p2);
    OneStep(s, EndDispatch(0, Raises));
    OneStep(s1, Complete(0, Reading(0)));
    hide Next, Enabled, At, Moved, Runs, After;
    RunsAppend(s, [EndDispatch(0, Raises)], [Complete(0, Reading(0))]);
    assert [EndDispatch(0, Raises)] + [Complete(0, Reading(0))] == [EndDispatch(0, Raises), Complete(0, Reading(0))];
  }

  lemma OthersReachTheDoor(s: State, calls: seq<Call>)
    requires |calls| == 4
    requires At(s, calls, [Publishing(Published(calls)), Waiting(0), Idle, Idle],
                map[calls[0].key := Owned(calls, 0)], 2)
    ensures var ls := ReachDoor(2, 0) + ReachDoor(3, RETENTION_NS);
            Runs(s, ls) && At(After(s, ls), calls, PhasesAtPublication(calls), map[calls[0].key := Owned(calls, 0)], 4)
  {
    var m := map[calls[0].key := Owned(calls, 0)];
    var s1 := AtTheDoor(s, 2, 0);
    assert Fallback(calls[2]).Some? && Fallback(calls[3]).Some?;
    Movable(s, calls, s.phases, m, 2, 2);
    hide Four, Fallback, OnTop, AtTheDoor, Runs, After;
    DoorReached(s, 2, 0);
    PushedAt(s, s1, calls, s.phases, m, 2, Entering(0));
    Movable(s1, calls, s1.phases, m, 3, 3);
    hide At, MayBegin;
    DoorReached(s1, 3, RETENTION_NS);
    var s2 := AtTheDoor(s1, 3, RETENTION_NS);
    PushedAt(s1, s2, calls, s1.phases, m, 3, Entering(RETENTION_NS));
    RunsAppend(s, ReachDoor(2, 0), ReachDoor(3, RETENTION_NS));
  }

  function Fresh(calls: seq<Call>): Entry
    requires |calls| > 0
  {
    Terminal(calls[0].digest, FallbackOf(calls[0]), Some(0), None, true)
  }

  function Anchored(calls: seq<Call>): Entry
    requires |calls| > 0
  {
    Terminal(calls[0].digest, FallbackOf(calls[0]), None, Some(0), false)
  }

  lemma OwnerPublishesFresh(s: State, calls: seq<Call>)
    requires |calls| == 4
    requires At(s, calls, PhasesAtPublication(calls), map[calls[0].key := Owned(calls, 0)], 4)
    ensures Runs(s, [Publish(0)])
    ensures At(After(s, [Publish(0)]), calls,
               [Decoding(FallbackOf(calls[0])), Resuming(0), Entering(0), Entering(RETENTION_NS)],
               map[calls[0].key := Fresh(calls)], 4)
  {
    var m := map[calls[0].key := Owned(calls, 0)];
    Movable(s, calls, s.phases, m, 4, 0);
    hide OnTop, FallbackOf, Fallback, Four;
    assert Enabled(s, Publish(0));
    assert m[calls[0].key := Fresh(calls)] == map[calls[0].key := Fresh(calls)];
    OneStep(s, Publish(0));
    hide Runs, After;
  }

  lemma FirstPassAnchors(s: State, calls: seq<Call>, phases: seq<Phase>)
    requires |calls| == 4 && |phases| == 4 && phases[2] == Entering(0)
    requires At(s, calls, phases, map[calls[0].key := Fresh(calls)], 4)
    ensures Runs(s, [Enter(2)])
    ensures At(After(s, [Enter(2)]), calls, phases[2 := Dispatching(0)],
               map[calls[0].key := Anchored(calls), calls[2].key := Owned(calls, 2)], 4)
  {
    var m := map[calls[0].key := Fresh(calls)];
    Movable(s, calls, phases, m, 4, 2);
    assert Pruned(m, 0) == map[calls[0].key := Anchored(calls)];
    hide OnTop, FallbackOf, Fallback, Pruned;
    EnterReserves(s, 2, 0);
    assert map[calls[0].key := Anchored(calls)][calls[2].key := Owned(calls, 2)] ==
           map[calls[0].key := Anchored(calls), calls[2].key := Owned(calls, 2)];
    hide Runs, After, Decide;
  }

  lemma SecondPassDeletes(s: State, calls: seq<Call>, phases: seq<Phase>)
    requires |calls| == 4 && |phases| == 4 && phases[3] == Entering(RETENTION_NS)
    requires At(s, calls, phases, map[calls[0].key := Anchored(calls), calls[2].key := Owned(calls, 2)], 4)
    ensures Runs(s, [Enter(3)])
    ensures At(After(s, [Enter(3)]), calls, phases[3 := Dispatching(RETENTION_NS)],
               map[calls[2].key := Owned(calls, 2), calls[3].key := Owned(calls, 3)], 4)
  {
    var m := map[calls[0].key := Anchored(calls), calls[2].key := Owned(calls, 2)];
    Movable(s, calls, phases, m, 4, 3);
    assert calls[2].key != calls[0].key;
    assert Pruned(m, RETENTION_NS) == map[calls[2].key := Owned(calls, 2)];
    hide OnTop, FallbackOf, Fallback, Pruned;
    EnterReserves(s, 3, RETENTION_NS);
    assert map[calls[2].key := Owned(calls, 2)][calls[3].key := Owned(calls, 3)] ==
           map[calls[2].key := Owned(calls, 2), calls[3].key := Owned(calls, 3)];
    hide Runs, After, Decide;
  }

  lemma WaiterReserves(s: State, calls: seq<Call>, phases: seq<Phase>)
    requires |calls| == 4 && |phases| == 4 && phases[1] == Resuming(0)
    requires At(s, calls, phases, map[calls[2].key := Owned(calls, 2), calls[3].key := Owned(calls, 3)], 4)
    ensures Runs(s, [Resume(1)])
    ensures After(s, [Resume(1)]).calls == calls && After(s, [Resume(1)]).phases == phases[1 := Dispatching(0)]
  {
    var m := map[calls[2].key := Owned(calls, 2), calls[3].key := Owned(calls, 3)];
    Movable(s, calls, phases, m, 4, 1);
    assert calls[1].key !in m;
    assert m == map[calls[2].key := Owned(calls, 2)][calls[3].key := Owned(calls, 3)];
    assert |m| == 2;
    assert DecisionFor(s, 1).Reserve?;
    hide OnTop, Decide, Looked;
    OneStep(s, Resume(1));
    ReservedShape(s, 1, 0);
    hide Runs, After;
  }

  lemma StartsIdle(s: State)
    requires Init(s) && Four(s.calls) && s.capacity >= 3
    ensures At(s, s.calls, [Idle, Idle, Idle, Idle], map[], 0)
  {
    assert |s.calls| == 4;
    hide Four;
    assert s.phases == [Idle, Idle, Idle, Idle];
  }

  lemma UpToDispatch(s: State, calls: seq<Call>)
    requires |calls| == 4 && At(s, calls, [Idle, Idle, Idle, Idle], map[], 0)
    ensures var ls := CallAndLook(0, 0) + CallAndLook(1, 0);
            Runs(s, ls) &&
            At(After(s, ls), calls, [Dispatching(0), Waiting(0), Idle, Idle], map[calls[0].key := Owned(calls, 0)], 2)
  {
    assert 0 <= MAX_CLOCK_NS;
    hide *;
    OwnerReserves(s, calls);
    SecondWaits(After(s, CallAndLook(0, 0)), calls);
    RunsAppend(s, CallAndLook(0, 0), CallAndLook(1, 0));
  }

  lemma FromDispatch(s: State, calls: seq<Call>)
    requires |calls| == 4
    requires At(s, calls, [Dispatching(0), Waiting(0), Idle, Idle], map[calls[0].key := Owned(calls, 0)], 2)
    ensures var ends := [EndDispatch(0, Raises), Complete(0, Reading(0))];
            var ls := ends + (ReachDoor(2, 0) + ReachDoor(3, RETENTION_NS));
            Runs(s, ls) && At(After(s, ls), calls, PhasesAtPublication(calls), map[calls[0].key := Owned(calls, 0)], 4)
  {
    assert 0 <= RETENTION_NS <= MAX_CLOCK_NS;
    hide *;
    var ends := [EndDispatch(0, Raises), Complete(0, Reading(0))];
    DispatchEnds(s, calls);
    OthersReachTheDoor(After(s, ends), calls);
    RunsAppend(s, ends, ReachDoor(2, 0) + ReachDoor(3, RETENTION_NS));
  }

  lemma UpToPublication(s: State, ls: seq<Label>)
    requires Init(s) && Four(s.calls) && s.capacity >= 3 && ls == UntilPublication()
    ensures Runs(s, ls) && |s.calls| == 4
    ensures At(After(s, ls), s.calls, PhasesAtPublication(s.calls), map[s.calls[0].key := Owned(s.calls, 0)], 4)
  {
    assert |s.calls| == 4;
    var a := CallAndLook(0, 0) + CallAndLook(1, 0);
    var doors := ReachDoor(2, 0) + ReachDoor(3, RETENTION_NS);
    var b := [EndDispatch(0, Raises), Complete(0, Reading(0))] + doors;
    assert a + b == ls;
    StartsIdle(s);
    hide *;
    UpToDispatch(s, s.calls);
    FromDispatch(After(s, a), s.calls);
    RunsAppend(s, a, b);
  }

  lemma PublishThenAnchor(s: State, calls: seq<Call>)
    requires |calls| == 4
    requires At(s, calls, PhasesAtPublication(calls), map[calls[0].key := Owned(calls, 0)], 4)
    ensures var ls := [Publish(0)] + [Enter(2)];
            Runs(s, ls) &&
            At(After(s, ls), calls,
                [Decoding(FallbackOf(calls[0])), Resuming(0), Dispatching(0), Entering(RETENTION_NS)],
               map[calls[0].key := Anchored(calls), calls[2].key := Owned(calls, 2)], 4)
  {
    assert 0 <= RETENTION_NS <= MAX_CLOCK_NS;
    hide *;
    var p := [Decoding(FallbackOf(calls[0])), Resuming(0), Entering(0), Entering(RETENTION_NS)];
    OwnerPublishesFresh(s, calls);
    FirstPassAnchors(After(s, [Publish(0)]), calls, p);
    RunsAppend(s, [Publish(0)], [Enter(2)]);
    assert p[2 := Dispatching(0)] ==
           [Decoding(FallbackOf(calls[0])), Resuming(0), Dispatching(0), Entering(RETENTION_NS)];
  }

  lemma DeleteThenDispatch(s: State, calls: seq<Call>)
    requires |calls| == 4
    requires At(s, calls, [Decoding(FallbackOf(calls[0])), Resuming(0), Dispatching(0), Entering(RETENTION_NS)],
                map[calls[0].key := Anchored(calls), calls[2].key := Owned(calls, 2)], 4)
    ensures var ls := [Enter(3)] + [Resume(1)];
            && Runs(s, ls) && After(s, ls).calls == calls
            && |After(s, ls).phases| == 4 && After(s, ls).phases[1].Dispatching?
  {
    assert 0 <= RETENTION_NS <= MAX_CLOCK_NS;
    hide *;
    var p := [Decoding(FallbackOf(calls[0])), Resuming(0), Dispatching(0), Entering(RETENTION_NS)];
    SecondPassDeletes(s, calls, p);
    WaiterReserves(After(s, [Enter(3)]), calls, p[3 := Dispatching(RETENTION_NS)]);
    RunsAppend(s, [Enter(3)], [Resume(1)]);
  }

  lemma AfterPublication(s: State, calls: seq<Call>, ls: seq<Label>)
    requires |calls| == 4 && ls == FromPublication()
    requires At(s, calls, PhasesAtPublication(calls), map[calls[0].key := Owned(calls, 0)], 4)
    ensures Runs(s, ls) && After(s, ls).calls == calls
    ensures |After(s, ls).phases| == 4 && After(s, ls).phases[1].Dispatching?
  {
    var a, b := [Publish(0)] + [Enter(2)], [Enter(3)] + [Resume(1)];
    assert a + b == ls;
    hide *;
    PublishThenAnchor(s, calls);
    DeleteThenDispatch(After(s, a), calls);
    RunsAppend(s, a, b);
  }

  function ReadingOf(l: Label): seq<int> {
    match l
    case ReadClock(_, Reading(n)) => [n]
    case Complete(_, Reading(n)) => [n]
    case _ => []
  }

  /** The clock values read in a run, in order. */
  function Readings(ls: seq<Label>): seq<int> {
    if ls == [] then [] else ReadingOf(ls[0]) + Readings(ls[1..])
  }

  lemma {:induction false} ReadingsAppend(a: seq<Label>, b: seq<Label>)
    ensures Readings(a + b) == Readings(a) + Readings(b)
    decreases |a|
  {
    hide ReadingOf;
    if a == [] {
      assert a + b == b;
    } else {
      ReadingsAppend(a[1..], b);
      assert (a + b)[1..] == a[1..] + b;
      assert ReadingOf(a[0]) + (Readings(a[1..]) + Readings(b)) == ReadingOf(a[0]) + Readings(a[1..]) + Readings(b);
    }
  }

  lemma ReadingsOfOne(l: Label)
    ensures Readings([l]) == ReadingOf(l)
  {
    assert [l][1..] == [];
  }

  lemma ReadingsOfDoor(c: CallId, now: Nanos)
    ensures Readings(ReachDoor(c, now)) == [now] && Readings(CallAndLook(c, now)) == [now]
  {
    ReadingsOfOne(Begin(c));
    ReadingsOfOne(ReadClock(c, Reading(now)));
    ReadingsOfOne(Enter(c));
    hide Readings;
    ReadingsAppend([Begin(c)], [ReadClock(c, Reading(now))]);
    assert [Begin(c)] + [ReadClock(c, Reading(now))] == ReachDoor(c, now);
    ReadingsAppend(ReachDoor(c, now), [Enter(c)]);
  }

  lemma ReadingsOfTheRun()
    ensures Readings(UntilPublication()) == [0, 0, 0, 0, RETENTION_NS]
  {
    hide Readings, CallAndLook, ReachDoor;
    ReadingsOfDoor(0, 0);
    ReadingsOfDoor(1, 0);
    ReadingsOfDoor(2, 0);
    ReadingsOfDoor(3, RETENTION_NS);
    ReadingsOfOne(EndDispatch(0, Raises));
    ReadingsOfOne(Complete(0, Reading(0)));
    var ends := [EndDispatch(0, Raises), Complete(0, Reading(0))];
    assert ends == [EndDispatch(0, Raises)] + [Complete(0, Reading(0))];
    ReadingsAppend([EndDispatch(0, Raises)], [Complete(0, Reading(0))]);
    ReadingsAppend(CallAndLook(0, 0), CallAndLook(1, 0));
    ReadingsAppend(CallAndLook(0, 0) + CallAndLook(1, 0), ends);
    ReadingsAppend(ReachDoor(2, 0), ReachDoor(3, RETENTION_NS));
    ReadingsAppend(CallAndLook(0, 0) + CallAndLook(1, 0) + ends, ReachDoor(2, 0) + ReachDoor(3, RETENTION_NS));
  }

  lemma NoReadingAfterPublication()
    ensures Readings(FromPublication()) == []
  {
    ReadingsOfOne(Publish(0));
    ReadingsOfOne(Enter(2));
    ReadingsOfOne(Enter(3));
    ReadingsOfOne(Resume(1));
    hide Readings;
    ReadingsAppend([Publish(0)], [Enter(2)]);
    ReadingsAppend([Publish(0)] + [Enter(2)], [Enter(3)]);
    ReadingsAppend([Publish(0)] + [Enter(2)] + [Enter(3)], [Resume(1)]);
    assert [Publish(0)] + [Enter(2)] + [Enter(3)] + [Resume(1)] == FromPublication();
  }

  /** In a run over `before`, call 0 comes to publish while call 1 waits for it.  Over `after` the result is published
      and removed, and call 1 dispatches. */
  ghost predicate ForgetsBetween(s: State, before: seq<Label>, after: seq<Label>) {
    && |s.calls| == |s.phases| == 4 && Runs(s, before)
    && var s1 := After(s, before);
       && |s1.phases| == 4 && s1.phases[0].Publishing? && s1.phases[1].Waiting?
       && Runs(s1, after) && Removed(s1, after, s.calls[0].key) > 0
       && var s2 := After(s1, after); |s2.phases| == 4 && s2.phases[1].Dispatching?
  }

  /** Every reading of the run comes before the publication, and they never go back.  Still the published result is
      removed by the second pass after it, and the waiter that was woken for it dispatches again. */
  lemma ForgottenAtOnce(s: State) returns (before: seq<Label>, after: seq<Label>)
    requires Init(s) && Four(s.calls) && s.capacity >= 3
    ensures Readings(before) == [0, 0, 0, 0, RETENTION_NS] && Readings(after) == []
    ensures ForgetsBetween(s, before, after)
  {
    before, after := UntilPublication(), FromPublication();
    ReadingsOfTheRun();
    NoReadingAfterPublication();
    hide UntilPublication, FromPublication, Readings, Runs, After, Removed;
    UpToPublication(s, before);
    var s1 := After(s, before);
    AtFields(s1, s.calls, PhasesAtPublication(s.calls), map[s.calls[0].key := Owned(s.calls, 0)], 4);
    AfterPublication(s1, s.calls, after);
    InitInv(s);
    assert s.calls[0].key == s.calls[1].key;
    hide Init, Four, At;
    RemovedBetween(s, before, after);
  }

  lemma RemovedBetween(s: State, before: seq<Label>, after: seq<Label>)
    requires Inv(s) && |s.calls| == 4 && s.calls[0].key == s.calls[1].key && Runs(s, before)
    requires var s1 := After(s, before);
             |s1.phases| == 4 && s1.calls == s.calls && s1.phases[0].Publishing? && Runs(s1, after)
    requires var s2 := After(After(s, before), after);
             |s2.phases| == 4 && s2.calls == s.calls && s2.phases[1].Dispatching?
    ensures Removed(After(s, before), after, s.calls[0].key) > 0
  {
    hide Inv, Runs, After, Removed;
    var s1 := After(s, before);
    var s2 := After(s1, after);
    assert Owning(s1.phases[0]) && Owning(s2.phases[1]);
    hide *;
    RunInv(s, before);
    RunInv(s1, after);
    OwnsOrigin(s1, 0);
    OwnsOrigin(s2, 1);
    SameIncarnation(s1, after, s.calls[0].key);
    NotMadeBy(s2, s.calls[0].key, 1, 0);
  }

  lemma AtFields(s: State, calls: seq<Call>, phases: seq<Phase>, entries: map<Key, Entry>, started: nat)
    requires At(s, calls, phases, entries, started)
    ensures s.calls == calls && s.phases == phases && s.entries == entries
  {
  }

  lemma NotMadeBy(s: State, k: Key, made: CallId, o: CallId)
    requires k in s.origin && s.origin[k] == made && made != o
    ensures !MadeBy(s, k, o)
  {
  }
}
