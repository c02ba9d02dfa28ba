/** What whole runs do to one key: reservations, dispatches, removals and how long a terminal is kept. */
module ReplayHistory {
  import opened Wrappers
  import opened ReplayCodec
  import opened ReplayTable
  import opened ReplayProtocol
  import opened ReplayInvariant
  import opened ReplayRefinement
  import opened ReplayProgress

  /** The step starts a dispatch for key `k`; it is the same step that makes the reservation. */
  ghost predicate Dispatches(s: State, l: Label, k: Key)
    requires Enabled(s, l)
  {
    (l.Enter? || l.Resume?) && s.calls[l.c].key == k && Next(s, l).phases[l.c].Dispatching?
  }

  /** The prune pass of this step deletes the entry of key `k`. */
  predicate Removes(s: State, l: Label, k: Key)
    requires Enabled(s, l)
  {
    l.Enter? && k in s.entries && Expired(s.entries[k], s.phases[l.c].initial)
  }

  /** An entry that is neither removed nor replaced in a step. */
  function Kept(s: State, l: Label, k: Key): Entry
    requires Enabled(s, l) && k in s.entries
  {
    if l.Enter? then Aged(s.entries[k], s.phases[l.c].initial)
    else if l.Publish? && s.calls[l.c].key == k then TerminalOf(s.calls[l.c].digest, s.phases[l.c].st)
    else s.entries[k]
  }

  lemma LookEntry(s: State, c: CallId, initial: Nanos, k: Key)
    requires Sized(s) && c < |s.calls| && OnTop(s, c)
    ensures var s' := LookUp(s, c, initial);
            var reserves := s'.phases[c].Dispatching? && s.calls[c].key == k;
            && (reserves ==>
                  (k !in s.entries && k in s'.entries && k in s'.origin && s'.origin[k] == c &&
                   s'.entries[k] == InFlight(s.calls[c].digest, s.calls[c].thread)))
            && (!reserves ==> (k in s.entries <==> k in s'.entries))
            && (!reserves && k in s.entries ==>
                  (s'.entries[k] == s.entries[k] && k in s'.origin && s'.origin[k] == s.origin[k]))
  {
    hide OnTop, Popped, Decide;
    LookedUnchanged(s.entries, s.capacity, s.calls[c].key, s.calls[c].digest, s.calls[c].thread);
    if DecisionFor(s, c).Reserve? {
      ReserveMeansAbsent(s, c);
    } else {
      hide Looked;
    }
  }

  lemma ReserveMeansAbsent(s: State, c: CallId)
    requires c < |s.calls| && DecisionFor(s, c).Reserve?
    ensures s.calls[c].key !in s.entries
  {
  }

  lemma TouchesNothing(s: State, l: Label)
    requires Enabled(s, l) && !l.Enter? && !l.Resume? && !l.Publish?
    ensures Next(s, l).entries == s.entries && Next(s, l).origin == s.origin
  {
    hide Fallback, FallbackOf, DispatchBytes, Settle, DecodeOrFallback, InitialClock, Popped, OnTop, MayBegin;
  }

  /** The complete effect of one step on one key. */
  lemma StepEntry(s: State, l: Label, k: Key)
    requires Inv(s) && Enabled(s, l)
    ensures var s' := Next(s, l);
            && s'.origin.Keys == s'.entries.Keys && s.origin.Keys == s.entries.Keys
            && (Removes(s, l, k) ==> k in s.entries)
            && (Dispatches(s, l, k) ==>
                  k in s'.entries && s'.entries[k].InFlight? && s'.entries[k].digest == s.calls[l.c].digest &&
                  s'.origin[k] == l.c && (k in s.entries ==> Removes(s, l, k)))
            && (!Dispatches(s, l, k) && Removes(s, l, k) ==> k !in s'.entries)
            && (!Dispatches(s, l, k) && !Removes(s, l, k) ==>
                  (k in s.entries <==> k in s'.entries) &&
                  (k in s.entries ==> s'.entries[k] == Kept(s, l, k) && s'.origin[k] == s.origin[k]))
  {
    hide Inv, OnTop, LookUp, PublishStep, Expired, Aged, MayBegin, Reserved, Owning, Sized;
    NextInv(s, l);
    KeysOfOrigin(s);
    KeysOfOrigin(Next(s, l));
    match l {
      case Enter(c) =>
        EnterEntry(s, c, k);
      case Resume(c) =>
        InvParts(s);
        LookEntry(s, c, s.phases[c].initial, k);
      case Publish(c) =>
        hide HoldsReservation;
        PublishingFacts(s, c);
        PublishEntries(s, c, s.phases[c].st);
        PublishKeepsOrigin(s, c, s.phases[c].st);
        HoldsMeansPresent(s.entries, s.calls[c].key, s.calls[c].digest, s.calls[c].thread);
      case _ =>
        TouchesNothing(s, l);
        hide Next;
    }
  }

  lemma KeysOfOrigin(s: State)
    requires Inv(s)
    ensures s.origin.Keys == s.entries.Keys
  {
    InvParts(s);
    hide Inv, Reserved;
  }

  lemma HoldsMeansPresent(entries: map<Key, Entry>, k: Key, d: Digest, t: ThreadId)
    requires HoldsReservation(entries, k, d, t)
    ensures k in entries
  {
  }

  lemma PublishKeepsOrigin(s: State, c: CallId, st: Settlement)
    requires c < |s.calls| == |s.phases| && OnTop(s, c)
    ensures PublishStep(s, c, st).origin == s.origin
  {
    hide OnTop, Popped, TerminalOf;
  }

  lemma EnterEntry(s: State, c: CallId, k: Key)
    requires Inv(s) && c < |s.calls| == |s.phases| && OnTop(s, c) && s.phases[c].Entering?
    ensures OnTop(PrunedState(s, s.phases[c].initial), c)
    ensures var now := s.phases[c].initial;
            var s' := LookUp(PrunedState(s, now), c, now);
            var reserves := s'.phases[c].Dispatching? && s.calls[c].key == k;
            var removes := k in s.entries && Expired(s.entries[k], now);
            && (reserves ==>
                  (k in s'.entries && k in s'.origin && s'.origin[k] == c &&
                   s'.entries[k] == InFlight(s.calls[c].digest, s.calls[c].thread) && (k in s.entries ==> removes)))
            && (!reserves && removes ==> k !in s'.entries)
            && (!reserves && !removes ==> (k in s.entries <==> k in s'.entries))
            && (!reserves && !removes && k in s.entries ==>
                  (s'.entries[k] == Aged(s.entries[k], now) && k in s.origin && k in s'.origin
                      && s'.origin[k] == s.origin[k]))
  {
    hide Inv, OnTop, LookUp, Expired, Aged, Reserved, Sized;
    var now := s.phases[c].initial;
    var s1 := PrunedState(s, now);
    PruneInv(s, now);
    InvParts(s);
    InvParts(s1);
    OnTopFrame(s, s1, c);
    LookEntry(s1, c, now, k);
  }

  // ---------------------------------------------------------------- reservations

  /** Nothing but the publication of the owner changes or removes a reservation. */
  lemma ReservationIsStable(s: State, l: Label, s': State, k: Key)
    requires Inv(s) && Enabled(s, l) && s' == Next(s, l) && k in s.entries && s.entries[k].InFlight?
    ensures k in s'.entries && OriginOf(s', k) == OriginOf(s, k)
    ensures s'.entries[k].Terminal? <==> l == Publish(OriginOf(s, k))
    ensures s'.entries[k].InFlight? ==> s'.entries[k] == s.entries[k]
  {
    StepEntry(s, l, k);
    if l.Publish? {
      PublisherOwns(s, l.c);
    }
    OriginActs(s, l, k);
    hide Inv, Next, OnTop;
  }

  lemma PublisherOwns(s: State, c: CallId)
    requires Inv(s) && c < |s.calls| && s.phases[c].Publishing?
    ensures s.calls[c].key in s.entries && OriginOf(s, s.calls[c].key) == c
    ensures s.entries[s.calls[c].key] == InFlight(s.calls[c].digest, s.calls[c].thread)
  {
    assert Owning(s.phases[c]);
    hide Inv, Owning;
    OwnsOrigin(s, c);
  }

  /** If the recorded origin of a reservation publishes, it publishes that key. */
  lemma OriginActs(s: State, l: Label, k: Key)
    requires Inv(s) && Enabled(s, l) && k in s.entries && s.entries[k].InFlight?
    ensures l == Publish(OriginOf(s, k)) ==> s.calls[l.c].key == k
  {
    hide WaitersBlocked, TerminalsTraced, AnswersTraced, Traced, Stacked, Owning, OnTop;
  }

  /** Exactly one active frame holds a reservation: the call recorded as its origin. */
  lemma ReservationHasOneFrame(s: State, k: Key)
    requires Inv(s) && k in s.entries && s.entries[k].InFlight?
    ensures forall c | 0 <= c < |s.calls| ::
              (Owning(s.phases[c]) && s.calls[c].key == k) <==> c == s.origin[k]
    ensures var o := s.origin[k]; s.entries[k] == InFlight(s.calls[o].digest, s.calls[o].thread)
  {
    hide WaitersBlocked, TerminalsTraced, AnswersTraced, Traced, Stacked, Owning;
  }

  lemma WaitsForAnother(s: State, c: CallId)
    requires Inv(s) && c < |s.calls| && s.phases[c].Waiting?
    ensures var k := s.calls[c].key;
            k in s.entries && s.entries[k].InFlight? && s.entries[k].digest == s.calls[c].digest &&
            s.entries[k].owner != s.calls[c].thread
  {
    hide Reserved, TerminalsTraced, AnswersTraced, Traced, Stacked;
  }

  /** No lost wake-up: in every reachable state, a call that waits and has not been notified waits for a reservation
      with its own key and digest, held by a call on another thread that is still to publish it. */
  lemma NoLostWakeUp(s: State, ls: seq<Label>, c: CallId)
    requires Init(s) && Runs(s, ls)
    requires c < |s.calls| && |After(s, ls).phases| == |s.calls| && After(s, ls).phases[c].Waiting?
    ensures var t := After(s, ls);
            var k := s.calls[c].key;
            && t.calls == s.calls && k in t.entries && k in t.origin
            && var o := t.origin[k];
               && o < |s.calls| && Owning(t.phases[o])
               && s.calls[o].key == k && s.calls[o].digest == s.calls[c].digest
                  && s.calls[o].thread != s.calls[c].thread
  {
    InitInv(s);
    RunInv(s, ls);
    var t := After(s, ls);
    hide Init, Runs, After, Inv, Owning;
    InvSized(t, c);
    WaitsForAnother(t, c);
    ReservationHasOneFrame(t, s.calls[c].key);
  }

  ghost function Count(b: bool): nat { if b then 1 else 0 }

  ghost function Dispatched(s: State, ls: seq<Label>, k: Key): nat
    requires Runs(s, ls)
    decreases |ls|
  {
    if ls == [] then 0 else Count(Dispatches(s, ls[0], k)) + Dispatched(Next(s, ls[0]), ls[1..], k)
  }

  ghost function Removed(s: State, ls: seq<Label>, k: Key): nat
    requires Runs(s, ls)
    decreases |ls|
  {
    if ls == [] then 0 else Count(Removes(s, ls[0], k)) + Removed(Next(s, ls[0]), ls[1..], k)
  }

  /** One dispatch per incarnation: an entry is there exactly for the dispatches not yet paid for by a removal. */
  lemma {:induction false} OneDispatchPerIncarnation(s: State, ls: seq<Label>, k: Key)
    requires Inv(s) && Runs(s, ls)
    ensures Count(k in s.entries) + Dispatched(s, ls, k) == Count(k in After(s, ls).entries) + Removed(s, ls, k)
    decreases |ls|
  {
    hide Next, Enabled, Inv, Dispatches, Removes, Kept;
    if ls != [] {
      NextInv(s, ls[0]);
      StepEntry(s, ls[0], k);
      OneDispatchPerIncarnation(Next(s, ls[0]), ls[1..], k);
    }
  }

  /** From the empty table on, dispatches for a key are at most one more than its removals. */
  lemma DispatchesBoundedByRemovals(s: State, ls: seq<Label>, k: Key)
    requires Init(s) && Runs(s, ls)
    ensures Removed(s, ls, k) <= Dispatched(s, ls, k) <= Removed(s, ls, k) + 1
    ensures Dispatched(s, ls, k) == Removed(s, ls, k) + 1 <==> k in After(s, ls).entries
  {
    InitInv(s);
    OneDispatchPerIncarnation(s, ls, k);
  }

  /** While a key is not removed it keeps its digest, its owner and, once published, its bytes. */
  lemma {:induction false} IncarnationIsFixed(s: State, ls: seq<Label>, k: Key)
    requires Inv(s) && Runs(s, ls) && k in s.entries && Removed(s, ls, k) == 0
    ensures var s' := After(s, ls);
            && k in s'.entries && k in s'.origin && k in s.origin && s'.origin[k] == s.origin[k]
            && s'.entries[k].digest == s.entries[k].digest
            && (s.entries[k].Terminal? ==> s'.entries[k].Terminal? && s'.entries[k].bytes == s.entries[k].bytes)
    decreases |ls|
  {
    hide Next, Enabled, Inv, Dispatches, Removes, Kept;
    if ls == [] {
      InvParts(s);
    } else {
      NextInv(s, ls[0]);
      StepEntry(s, ls[0], k);
      KeptIsSame(s, ls[0], k);
      IncarnationIsFixed(Next(s, ls[0]), ls[1..], k);
    }
  }

  lemma KeptIsSame(s: State, l: Label, k: Key)
    requires Inv(s) && Enabled(s, l) && k in s.entries
    ensures Kept(s, l, k).digest == s.entries[k].digest
    ensures s.entries[k].Terminal? ==> Kept(s, l, k).Terminal? && Kept(s, l, k).bytes == s.entries[k].bytes
  {
    hide Inv, OnTop, MayBegin;
    if l.Publish? {
      PublisherOwns(s, l.c);
    }
  }

  /** A call is refused as a re-entry exactly when a frame below it on its own thread is working on the same
      key with the same digest. */
  lemma ReentryIsNested(s: State, c: CallId)
    requires Inv(s) && c < |s.calls| && OnTop(s, c) && Looking(s.phases[c])
    ensures DecisionFor(s, c).Reenter? <==>
              exists i | 0 <= i < |Stack(s, s.calls[c].thread)| - 1 ::
                var p := Stack(s, s.calls[c].thread)[i];
                p < |s.calls| && s.phases[p].Dispatching? && s.calls[p].key == s.calls[c].key
                    && s.calls[p].digest == s.calls[c].digest
  {
    hide WaitersBlocked, TerminalsTraced, AnswersTraced, Traced;
    var t := s.calls[c].thread;
    var key := s.calls[c].key;
    var stack := Stack(s, t);
    assert StackFormed(s, t);
    if DecisionFor(s, c).Reenter? {
      var o := s.origin[key];
      assert o in stack;
      var i :| 0 <= i < |stack| && stack[i] == o;
    }
  }

  // ---------------------------------------------------------------- retention

  /** The clock values of the prune passes of a run, in order. */
  ghost function Passes(s: State, ls: seq<Label>): seq<Nanos>
    requires Runs(s, ls)
    decreases |ls|
  {
    if ls == [] then [] else
    (if ls[0].Enter? then [s.phases[ls[0].c].initial] else []) + Passes(Next(s, ls[0]), ls[1..])
  }

  /** The terminal has been anchored at `anchor` and none of `passes` reaches the end of its retention. */
  ghost predicate Retained(anchor: Nanos, passes: seq<Nanos>) {
    forall i | 0 <= i < |passes| :: passes[i] - anchor < RETENTION_NS
  }

  lemma RetainedCons(anchor: Nanos, p: Nanos, passes: seq<Nanos>)
    ensures Retained(anchor, [p] + passes) <==> p - anchor < RETENTION_NS && Retained(anchor, passes)
    ensures Retained(anchor, [] + passes) <==> Retained(anchor, passes)
  {
    assert [] + passes == passes;
    var all := [p] + passes;
    assert all[0] == p && all[1..] == passes;
    if Retained(anchor, all) {
      forall i | 0 <= i < |passes|
        ensures passes[i] - anchor < RETENTION_NS
      {
        assert all[i + 1] == passes[i];
      }
    } else {
      var i :| 0 <= i < |all| && all[i] - anchor >= RETENTION_NS;
      assert i > 0 ==> passes[i - 1] == all[i];
    }
  }

  /** The table has entry `e` for key `k`. */
  predicate Holds(s: State, k: Key, e: Entry) { k in s.entries && s.entries[k] == e }

  /** An anchored terminal stays, unchanged, exactly until a pass at or beyond its anchor plus the window. */
  lemma {:induction false} AnchoredRetention(s: State, ls: seq<Label>, k: Key)
    requires Inv(s) && Runs(s, ls) && k in s.entries && AnchoredTerminal(s.entries[k])
    ensures Removed(s, ls, k) == 0 <==> Retained(s.entries[k].anchor.value, Passes(s, ls))
    ensures Removed(s, ls, k) == 0 ==> Holds(After(s, ls), k, s.entries[k])
    decreases |ls|
  {
    var anchor := s.entries[k].anchor.value;
    assert Retained(anchor, []);
    hide Next, Enabled, Inv, Dispatches, Retained;
    if ls != [] {
      NextInv(s, ls[0]);
      StepEntry(s, ls[0], k);
      var now := if ls[0].Enter? then s.phases[ls[0].c].initial else 0;
      RetainedCons(anchor, now, Passes(Next(s, ls[0]), ls[1..]));
      if !Removes(s, ls[0], k) {
        KeptTerminal(s, ls[0], k);
        AnchoredRetention(Next(s, ls[0]), ls[1..], k);
      }
    }
  }

  /** What one step leaves of a terminal that it does not remove. */
  lemma KeptTerminal(s: State, l: Label, k: Key)
    requires Inv(s) && Enabled(s, l) && k in s.entries && s.entries[k].Terminal? && !Removes(s, l, k)
    ensures k in Next(s, l).entries
    ensures Next(s, l).entries[k] == if l.Enter? then Aged(s.entries[k], s.phases[l.c].initial) else s.entries[k]
  {
    StepEntry(s, l, k);
    if l.Publish? {
      PublisherOwns(s, l.c);
    }
    hide Inv, Next, OnTop, MayBegin;
  }

  /** A freshly published terminal survives its first prune pass, which anchors it at the later of its completion
      sample and the clock value of that pass; only a later pass at or beyond the anchor plus the window removes it. */
  lemma {:induction false} PendingRetention(s: State, ls: seq<Label>, k: Key)
    requires Inv(s) && Runs(s, ls) && k in s.entries && PendingTerminal(s.entries[k])
    ensures var e := s.entries[k];
            var ps := Passes(s, ls);
            if ps == [] then Removed(s, ls, k) == 0 && Holds(After(s, ls), k, e)
            else
              var anchor := Max(e.floor.value, ps[0]);
              && (Removed(s, ls, k) == 0 <==> Retained(anchor, ps[1..]))
              && (Removed(s, ls, k) == 0 ==>
                    Holds(After(s, ls), k, Terminal(e.digest, e.bytes, None, Some(anchor), false)))
    decreases |ls|
  {
    hide Next, Enabled, Inv, Dispatches, Retained;
    if ls != [] {
      var s1 := Next(s, ls[0]);
      NextInv(s, ls[0]);
      KeptTerminal(s, ls[0], k);
      if ls[0].Enter? {
        AnchoredRetention(s1, ls[1..], k);
        assert Passes(s, ls)[1..] == Passes(s1, ls[1..]);
      } else {
        PendingRetention(s1, ls[1..], k);
        assert Passes(s, ls) == Passes(s1, ls[1..]);
      }
    }
  }

  /** However the clock moves, no terminal is removed before its completion sample plus the window. */
  lemma NeverRemovedEarly(s: State, ls: seq<Label>, k: Key)
    requires Inv(s) && Runs(s, ls) && k in s.entries && PendingTerminal(s.entries[k])
    requires forall p | p in Passes(s, ls) :: p - s.entries[k].floor.value < RETENTION_NS
    ensures Removed(s, ls, k) == 0
  {
    hide Inv, Next, Enabled;
    PendingRetention(s, ls, k);
    var ps := Passes(s, ls);
    hide Runs, Passes, Removed, After;
    if ps != [] {
      var anchor := Max(s.entries[k].floor.value, ps[0]);
      forall i | 0 <= i < |ps[1..]|
        ensures ps[1..][i] - anchor < RETENTION_NS
      {
        assert ps[1..][i] in ps;
      }
    }
  }

  /** An unprunable terminal stays as it is in every continuation. */
  lemma {:induction false} UnprunableForever(s: State, ls: seq<Label>, k: Key)
    requires Inv(s) && Runs(s, ls) && k in s.entries && UnprunableTerminal(s.entries[k])
    ensures Removed(s, ls, k) == 0
    ensures k in After(s, ls).entries && After(s, ls).entries[k] == s.entries[k]
    decreases |ls|
  {
    hide Next, Enabled, Inv, Dispatches;
    if ls != [] {
      NextInv(s, ls[0]);
      KeptTerminal(s, ls[0], k);
      UnprunableForever(Next(s, ls[0]), ls[1..], k);
    }
  }

  /** A dispatch that ended in process control, or a completion clock that did not give an integer between the
      initial reading and the clock's maximum. */
  predicate Uncertain(initial: Nanos, dispatch: DispatchOutcome, completion: ClockSample) {
    dispatch.Control? || !(completion.Reading? && initial <= completion.n <= MAX_CLOCK_NS)
  }

  /** A call that ends its dispatch, samples its completion clock and publishes, with any steps of other calls between.
      After process control there is no completion sample. */
  function Settling(
      c: CallId, dispatch: DispatchOutcome, a: seq<Label>, completion: ClockSample, b: seq<Label>): seq<Label>
  {
    Upto(c, dispatch, a, completion, b) + [Publish(c)]
  }

  function Upto(
      c: CallId, dispatch: DispatchOutcome, a: seq<Label>, completion: ClockSample, b: seq<Label>): seq<Label>
  {
    [EndDispatch(c, dispatch)] + a + (if dispatch.Control? then [] else [Complete(c, completion)]) + b
  }

  lemma DispatchEndsIn(s: State, c: CallId, dispatch: DispatchOutcome)
    requires Enabled(s, EndDispatch(c, dispatch))
    ensures c < |s.calls| == |s.phases| && s.phases[c].Dispatching?
    ensures var call := s.calls[c];
            Next(s, EndDispatch(c, dispatch)).phases[c] ==
            if dispatch.Control? then Publishing(Settlement(FallbackOf(call), None, true))
            else Completing(s.phases[c].initial, DispatchBytes(dispatch, FallbackOf(call), call.codec, call.requestId))
  {
    hide DispatchBytes, FallbackOf, OnTop;
  }

  lemma CompletionEndsIn(s: State, c: CallId, completion: ClockSample)
    requires Enabled(s, Complete(c, completion))
    ensures Next(s, Complete(c, completion)).phases[c] ==
            Publishing(Settle(s.phases[c].initial, s.phases[c].bytes, FallbackOf(s.calls[c]), completion))
  {
    hide Settle, FallbackOf, OnTop;
  }

  /** What the owner is about to publish when it gets there. */
  lemma ReachesPublication(
      s: State, c: CallId, dispatch: DispatchOutcome, a: seq<Label>, completion: ClockSample, b: seq<Label>)
    requires Inv(s) && Runs(s, Upto(c, dispatch, a, completion, b)) && OthersOnly(a, c) && OthersOnly(b, c)
    ensures c < |s.calls| == |s.phases| && s.phases[c].Dispatching?
    ensures var t := After(s, Upto(c, dispatch, a, completion, b));
            var call := s.calls[c];
            && Inv(t) && t.calls == s.calls && |t.phases| == |s.calls|
            && t.phases[c] == Publishing(
                 Settled(s.phases[c].initial, dispatch, completion, FallbackOf(call), call.codec, call.requestId))
  {
    var x := [EndDispatch(c, dispatch)];
    var y := if dispatch.Control? then [] else [Complete(c, completion)];
    assert Upto(c, dispatch, a, completion, b) == x + a + y + b;
    hide Inv, Next, Enabled, DispatchBytes, FallbackOf, Upto, Runs, After, OthersOnly, Settle;
    RunInv(s, x + a + y + b);
    InvSized(After(s, x + a + y + b), c);
    RunsSplit(s, x + a + y, b);
    RunsSplit(s, x + a, y);
    RunsSplit(s, x, a);
    OneStep(s, EndDispatch(c, dispatch));
    DispatchEndsIn(s, c, dispatch);
    RunInv(s, x + a);
    var s2 := After(s, x + a);
    PhaseStays(Next(s, EndDispatch(c, dispatch)), a, c);
    if dispatch.Control? {
      NoSteps(s2);
    } else {
      OneStep(s2, Complete(c, completion));
      CompletionEndsIn(s2, c, completion);
    }
    PhaseStays(After(s2, y), b, c);
  }

  lemma SettledEntry(
      digest: Digest, initial: Nanos, dispatch: DispatchOutcome, completion: ClockSample,
      fallback: Bytes, codec: Codec, id: string)
    ensures var e := TerminalOf(digest, Settled(initial, dispatch, completion, fallback, codec, id));
            && (UnprunableTerminal(e) <==> Uncertain(initial, dispatch, completion))
            && (UnprunableTerminal(e) ==> e.bytes == fallback)
            && (!UnprunableTerminal(e) ==>
                  (PendingTerminal(e) && e.floor == Some(completion.n)
                      && e.bytes == DispatchBytes(dispatch, fallback, codec, id)))
  {
    hide DispatchBytes;
  }

  lemma PublishEntries(s: State, c: CallId, st: Settlement)
    requires c < |s.calls| == |s.phases| && OnTop(s, c)
    requires HoldsReservation(s.entries, s.calls[c].key, s.calls[c].digest, s.calls[c].thread)
    ensures PublishStep(s, c, st).entries == s.entries[s.calls[c].key := TerminalOf(s.calls[c].digest, st)]
  {
    hide OnTop, Popped, TerminalOf;
  }

  /** What the owner publishes, whatever other calls do meanwhile: unprunable exactly when its dispatch or its
      completion clock was uncertain, and then the closed failure; otherwise the dispatch's own bytes, pending from
      the completion sample. */
  lemma OwnerPublishes(
      s: State, c: CallId, dispatch: DispatchOutcome, a: seq<Label>, completion: ClockSample, b: seq<Label>)
    requires Inv(s) && Runs(s, Settling(c, dispatch, a, completion, b)) && OthersOnly(a, c) && OthersOnly(b, c)
    ensures c < |s.calls| == |s.phases| && s.phases[c].Dispatching?
    ensures s.calls[c].key in After(s, Settling(c, dispatch, a, completion, b)).entries
    ensures var call := s.calls[c];
            var e := After(s, Settling(c, dispatch, a, completion, b)).entries[call.key];
            && e.digest == call.digest
            && (UnprunableTerminal(e) <==> Uncertain(s.phases[c].initial, dispatch, completion))
            && (UnprunableTerminal(e) ==> e.bytes == FallbackOf(call))
            && (!UnprunableTerminal(e) ==>
                  (PendingTerminal(e) && e.floor == Some(completion.n) &&
                   e.bytes == DispatchBytes(dispatch, FallbackOf(call), call.codec, call.requestId)))
            && (RoundTrips(call.codec) && !UnprunableTerminal(e) ==>
                  e.bytes == if dispatch.Gave? && Storable(call.codec, dispatch.result, call.requestId)
                             then call.codec.encode(dispatch.result).value else FallbackOf(call))
  {
    var upto := Upto(c, dispatch, a, completion, b);
    assert Settling(c, dispatch, a, completion, b) == upto + [Publish(c)];
    hide Inv, Upto, Settling, DispatchBytes, FallbackOf, PublishStep, TerminalOf, Settled, Runs, After, OthersOnly;
    hide UnprunableTerminal, PendingTerminal, Uncertain, Next, Enabled, OnTop, HoldsReservation;
    RunsSplit(s, upto, [Publish(c)]);
    ReachesPublication(s, c, dispatch, a, completion, b);
    OneStep(After(s, upto), Publish(c));
    var call := s.calls[c];
    var st := Settled(s.phases[c].initial, dispatch, completion, FallbackOf(call), call.codec, call.requestId);
    PublishesEntry(After(s, upto), c, st);
    SettledEntry(call.digest, s.phases[c].initial, dispatch, completion, FallbackOf(call), call.codec, call.requestId);
    DigestOfTerminal(call.digest, st);
    if RoundTrips(call.codec) {
      DispatchBytesAre(dispatch, FallbackOf(call), call.codec, call.requestId);
    }
  }

  lemma DispatchBytesAre(dispatch: DispatchOutcome, fallback: Bytes, codec: Codec, id: string)
    requires RoundTrips(codec)
    ensures dispatch.Gave? && Storable(codec, dispatch.result, id) ==> codec.encode(dispatch.result).Some?
    ensures DispatchBytes(dispatch, fallback, codec, id) ==
            if dispatch.Gave? && Storable(codec, dispatch.result, id) then codec.encode(dispatch.result).value
            else fallback
  {
    if dispatch.Gave? {
      StoredExactly(dispatch.result, codec, id);
    }
    hide NormalizeTerminal, DecodeTerminal;
  }

  lemma PublishesEntry(s: State, c: CallId, st: Settlement)
    requires Inv(s) && c < |s.calls| == |s.phases| && s.phases[c] == Publishing(st) && Enabled(s, Publish(c))
    ensures var t := Next(s, Publish(c));
            s.calls[c].key in t.entries && t.entries[s.calls[c].key] == TerminalOf(s.calls[c].digest, st)
  {
    hide Inv, TerminalOf, PublishStep, Next, Enabled, OnTop;
    PublisherOwns(s, c);
    PublishIs(s, c, st);
    PublishEntries(s, c, st);
  }

  lemma DigestOfTerminal(digest: Digest, st: Settlement)
    ensures TerminalOf(digest, st).digest == digest
  {
  }

  /** However other calls are scheduled around it and however the clock moves, a result completed at `n` is kept by
      every pass after its publication that is less than the window past `n`. */
  lemma KeptFromCompletion(
      s: State, c: CallId, dispatch: DispatchOutcome, a: seq<Label>, n: int, b: seq<Label>, later: seq<Label>)
    requires Inv(s) && OthersOnly(a, c) && OthersOnly(b, c)
    requires Runs(s, Settling(c, dispatch, a, Reading(n), b))
    requires !Uncertain(s.phases[c].initial, dispatch, Reading(n))
    requires Runs(After(s, Settling(c, dispatch, a, Reading(n), b)), later)
    requires forall p | p in Passes(After(s, Settling(c, dispatch, a, Reading(n), b)), later) ::
               p - n < 300_000_000_000
    ensures Removed(After(s, Settling(c, dispatch, a, Reading(n), b)), later, s.calls[c].key) == 0
  {
    hide Inv, Settling, Runs, After, Passes, Removed, OthersOnly, Uncertain;
    OwnerPublishes(s, c, dispatch, a, Reading(n), b);
    RunInv(s, Settling(c, dispatch, a, Reading(n), b));
    NeverRemovedEarly(After(s, Settling(c, dispatch, a, Reading(n), b)), later, s.calls[c].key);
  }
}
