/** One command sent three times: a run in which it is applied, answered from the table, forgotten, dispatched again and
    refused.  The short module names are those of `RoutedCommands`. */
module RoutedForgetting {
  import opened Wrappers
  import opened ReplayCodec
  import opened VariableCell
  import opened RoutedCommands
  import opened RoutedProgress

  // ---------------------------------------------------------------- what a call does not touch

  /** From `s` to `t` call `x` did not move, though it may have been woken. */
  ghost predicate Untouched(s: State, t: State, x: nat) {
    && Shaped(s) && Shaped(t) && Routed(s, x) && t.replay.calls == s.replay.calls && t.target == s.target
    && (t.replay.phases[x] == s.replay.phases[x] || t.replay.phases[x] == R.Woken(s.replay.phases[x]))
    && CellFor(t, x).phases[x] == CellFor(s, x).phases[x]
  }

  lemma StepLeaves(s: State, l: Label, c: nat, x: nat)
    requires Enabled(s, l) && LabelOf(l, c) && x != c && Routed(s, x)
    ensures Untouched(s, Next(s, l), x)
  {
    hide R.Next, R.Enabled, V.Next, V.Enabled, R.OnTop, R.Woken;
    match l {
      case Coordinator(r) => RP.OtherPhases(s.replay, r);
      case Variable(v, m) => V.StepPhase(s.cells[v], m);
    }
  }

  lemma {:induction false} RunLeaves(s: State, ls: seq<Label>, c: nat, x: nat)
    requires Shaped(s) && Runs(s, ls) && OwnLabels(ls, c) && x != c && Routed(s, x)
    ensures Untouched(s, After(s, ls), x)
    decreases |ls|
  {
    if ls != [] {
      StepLeaves(s, ls[0], c, x);
      var u := Next(s, ls[0]);
      hide Next, Enabled, Shaped, CellFor;
      RunLeaves(u, ls[1..], c, x);
    }
  }

  // ---------------------------------------------------------------- requests that are still to be sent

  /** No call of the thread is running. */
  ghost predicate FreeThread(s: R.State, th: T.ThreadId) {
    forall x | 0 <= x < |s.calls| == |s.phases| && s.calls[x].thread == th :: !R.Active(s.phases[x])
  }

  /** A top-level call, of its own free thread, that has not begun. */
  ghost predicate Unsent(s: State, x: nat) {
    && Shaped(s) && Routed(s, x) && s.replay.calls[x].parent.None? && s.replay.phases[x].Idle?
    && CellFor(s, x).phases[x].Idle? && FreeThread(s.replay, s.replay.calls[x].thread)
  }

  lemma FreeStackIsEmpty(s: R.State, th: T.ThreadId)
    requires R.Inv(s) && FreeThread(s, th)
    ensures R.Stack(s, th) == []
  {
    hide R.Reserved, R.WaitersBlocked, R.TerminalsTraced, R.AnswersTraced, R.Traced;
  }

  lemma UnsentMayBegin(s: State, init: seq<Cell>, x: nat)
    requires Inv(s, init) && Unsent(s, x)
    ensures R.MayBegin(s.replay, x)
  {
    hide R.Inv, CellsInv, GlueAt;
    FreeStackIsEmpty(s.replay, s.replay.calls[x].thread);
  }

  /** It stays so while another call runs from its beginning to its end. */
  lemma UnsentStays(s: State, ls: seq<Label>, c: nat, x: nat)
    requires Unsent(s, x) && Runs(s, ls) && OwnLabels(ls, c) && x != c
    requires Shaped(After(s, ls)) && Routed(After(s, ls), c) && After(s, ls).replay.phases[c].Finished?
    ensures Unsent(After(s, ls), x)
  {
    hide Runs, After, OwnLabels;
    var t := After(s, ls);
    RunLeaves(s, ls, c, x);
    forall y | 0 <= y < |t.replay.calls| && t.replay.calls[y].thread == t.replay.calls[x].thread
      ensures !R.Active(t.replay.phases[y])
    {
      if y != c {
        RunLeaves(s, ls, c, y);
      }
    }
  }

  lemma {:induction false} CommandsStay(s: State, ls: seq<Label>)
    requires Shaped(s) && Runs(s, ls)
    ensures |After(s, ls).cells| == |s.cells|
    ensures forall v | 0 <= v < |s.cells| :: After(s, ls).cells[v].calls == s.cells[v].calls
    decreases |ls|
  {
    if ls != [] {
      StepParts(s, ls[0]);
      hide Next, Enabled, V.Next, V.Enabled;
      CommandsStay(Next(s, ls[0]), ls[1..]);
    }
  }

  lemma FaithfulStays(s: State, ls: seq<Label>)
    requires Shaped(s) && Faithful(s) && Runs(s, ls)
    ensures Shaped(After(s, ls)) && Faithful(After(s, ls))
  {
    KeepsShape(s, ls);
    CommandsStay(s, ls);
    hide Runs, After, RR.Coherent, RoundTrips, SameCommand;
    var t := After(s, ls);
    forall c, d | 0 <= c < |t.replay.calls| && 0 <= d < |t.replay.calls| && SameRequest(t, c, d)
      ensures t.target[c] == t.target[d] && SameCommand(CellFor(t, c).calls[c], CellFor(t, d).calls[d])
    {
      assert SameRequest(s, c, d);
    }
  }

  // ---------------------------------------------------------------- answered from the table

  /** The table has `bytes` of call `c` for its key, and the first pass over them was at `now`. */
  predicate Anchored(t: R.State, c: nat, now: T.Nanos, bytes: Bytes) {
    && c < |t.calls| && t.calls[c].key in t.entries
    && t.entries[t.calls[c].key] == T.Terminal(t.calls[c].digest, bytes, None, Some(now), false)
    && t.calls[c].key in t.origin && t.origin[t.calls[c].key] == c
  }

  /** A pass at the time of the publication anchors what was published there. */
  lemma PassAnchors(t: R.State, c: nat, now: T.Nanos, bytes: Bytes, result: Result)
    requires Stored(t, c, now, bytes, result)
    ensures Anchored(R.PrunedState(t, now), c, now, bytes)
    ensures var call := t.calls[c];
            forall thread ::
              T.Decide(T.Pruned(t.entries, now), t.capacity, call.key, call.digest, thread) == T.Hit(bytes)
  {
  }

  /** A pass a whole window later removes it. */
  lemma PassRemoves(t: R.State, c: nat, now: T.Nanos, later: T.Nanos, bytes: Bytes)
    requires Anchored(t, c, now, bytes) && later - now >= T.RETENTION_NS && |t.entries| <= t.capacity
    ensures var call := t.calls[c];
            forall thread :: T.Decide(T.Pruned(t.entries, later), t.capacity, call.key, call.digest, thread).Reserve?
  {
    var k := t.calls[c].key;
    var kept := T.Pruned(t.entries, later);
    assert k !in kept;
    T.SubsetSize(kept.Keys, t.entries.Keys);
    assert k in t.entries.Keys && k !in kept.Keys;
  }

  /** The coordinator's part of sending the request of call `c` again as call `e`. */
  lemma HitsStored(s: R.State, c: nat, e: nat, now: T.Nanos, bytes: Bytes, result: Result)
    requires c < |s.calls| == |s.phases| && e < |s.calls| && R.MayBegin(s, e) && R.Fallback(s.calls[e]).Some?
    requires s.calls[c].key == s.calls[e].key && s.calls[c].digest == s.calls[e].digest
    requires Stored(s, c, now, bytes, result)
    requires DecodeTerminal(bytes, s.calls[e].codec, s.calls[e].requestId) == Some(result)
    ensures R.Runs(s, RS.HitLabels(e, now))
    ensures var t := R.After(s, RS.HitLabels(e, now));
            && e < |t.phases| && t.phases[e] == R.Finished(T.Returned(result))
            && t.calls == s.calls && Anchored(t, c, now, bytes)
  {
    hide R.MayBegin, R.Fallback, DecodeTerminal, T.Decide, T.Pruned, R.Runs, R.After, Stored, RS.HitLabels;
    PassAnchors(s, c, now, bytes, result);
    RS.CallReturns(s, e, now, bytes, result);
    RunKeepsCalls(s, RS.HitLabels(e, now));
  }

  lemma {:induction false} RunKeepsCalls(s: R.State, ls: seq<R.Label>)
    requires R.Runs(s, ls)
    ensures R.After(s, ls).calls == s.calls
    decreases |ls|
  {
    hide R.Next, R.Enabled;
    if ls != [] {
      RunKeepsCalls(R.Next(s, ls[0]), ls[1..]);
    }
  }

  /** Call `e` sends the request of call `c` again and is answered from the table. */
  lemma AnsweredFromTable(s: State, init: seq<Cell>, c: nat, e: nat, now: T.Nanos, bytes: Bytes, result: Result)
    returns (ls: seq<Label>, t: State)
    requires Inv(s, init) && Faithful(s) && Unsent(s, e) && Routed(s, c) && SameRequest(s, c, e)
    requires Stored(s.replay, c, now, bytes, result) && R.Fallback(s.replay.calls[c]).Some?
    requires DecodeTerminal(bytes, s.replay.calls[c].codec, s.replay.calls[c].requestId) == Some(result)
    ensures Runs(s, ls) && t == After(s, ls) && OwnLabels(ls, e) && Shaped(t)
    ensures t.replay.calls == s.replay.calls && t.target == s.target && t.cells == s.cells
    ensures t.replay.phases[e] == R.Finished(T.Returned(result)) && Anchored(t.replay, c, now, bytes)
  {
    hide *;
    SentFacts(s, c, e);
    UnsentMayBegin(s, init, e);
    SameCall(s, c, e);
    HitLabelsAre(e, now);
    var labels := RS.HitLabels(e, now);
    HitsStored(s.replay, c, e, now, bytes, result);
    LiftCoordinator(s, labels);
    OwnCoordinated(labels, e);
    ls := Coordinated(labels);
    t := After(s, ls);
    KeepsShape(s, ls);
  }

  lemma HitLabelsAre(e: nat, now: T.Nanos)
    ensures forall l | l in RS.HitLabels(e, now) :: !l.EndDispatch? && l.c == e
  {
  }

  lemma SentFacts(s: State, c: nat, e: nat)
    requires Unsent(s, e) && Routed(s, c)
    ensures Shaped(s) && Routed(s, e) && c < |s.replay.calls| == |s.replay.phases| && e < |s.replay.calls|
    ensures SameRequest(s, c, e) ==>
              s.replay.calls[c].key == s.replay.calls[e].key && s.replay.calls[c].digest == s.replay.calls[e].digest
  {
    hide FreeThread, CellFor;
  }

  /** What the caller is told when its precondition failed. */
  function Refusal(call: R.Call): Result {
    Rejected(call.requestId, ApplyCommand, PreconditionFailed)
  }

  lemma SameCall(s: State, c: nat, e: nat)
    requires Shaped(s) && Faithful(s) && Routed(s, c) && Routed(s, e) && SameRequest(s, c, e)
    ensures var a, b := s.replay.calls[c], s.replay.calls[e];
            && a.key == b.key && a.digest == b.digest && a.requestId == b.requestId && a.codec == b.codec
            && R.Fallback(a) == R.Fallback(b) && RoundTrips(a.codec) && Refusal(a) == Refusal(b)
  {
    hide FallbackBytes, RoundTrips, SameCommand;
  }

  // ---------------------------------------------------------------- dispatched again

  /** A window later call `d` finds the key of call `c` free again, and dispatches to its end. */
  lemma DispatchedAgain(s: State, init: seq<Cell>, c: nat, d: nat, now: T.Nanos, later: T.Nanos, bytes: Bytes)
    returns (ls: seq<Label>, t: State)
    requires Inv(s, init) && Faithful(s) && Unsent(s, d) && Routed(s, c) && SameRequest(s, c, d)
    requires Anchored(s.replay, c, now, bytes) && later - now >= T.RETENTION_NS
    requires R.Fallback(s.replay.calls[c]).Some?
    ensures Runs(s, ls) && t == After(s, ls) && OwnLabels(ls, d) && Shaped(t)
    ensures t.replay.calls == s.replay.calls && t.target == s.target
    ensures Reserving(t.replay, d, later) && Answered(t, d)
  {
    hide *;
    SentFacts(s, c, d);
    SameCall(s, c, d);
    WillReserveAgain(s, init, c, d, now, later, bytes);
    var a, u := Reserves(s, d, later);
    assert Routed(u, d) by { StillRouted(s, u, d); }
    var b;
    b, t := VariableEnds(u, d, later);
    RunsAppend(s, a, b);
    OwnAppend(a, b, d);
    ls := a + b;
  }

  lemma StillRouted(s: State, t: State, d: nat)
    requires t.replay.calls == s.replay.calls && Routed(s, d)
    ensures Routed(t, d)
  {
  }

  lemma WillReserveAgain(s: State, init: seq<Cell>, c: nat, d: nat, now: T.Nanos, later: T.Nanos, bytes: Bytes)
    requires Inv(s, init) && Faithful(s) && Unsent(s, d) && Routed(s, c) && SameRequest(s, c, d)
    requires Anchored(s.replay, c, now, bytes) && later - now >= T.RETENTION_NS
    requires R.Fallback(s.replay.calls[c]).Some?
    ensures WillReserve(s, d, later)
  {
    hide *;
    SentFacts(s, c, d);
    SameCall(s, c, d);
    UnsentMayBegin(s, init, d);
    InvParts(s, init);
    WithinCapacity(s.replay, c);
    PassRemoves(s.replay, c, now, later, bytes);
    WillReserveFrom(s, d, later);
  }

  lemma WithinCapacity(s: R.State, c: nat)
    requires R.Inv(s)
    ensures |s.entries| <= s.capacity
  {
    RI.InvSized(s, c);
    hide R.Inv;
  }

  lemma WillReserveFrom(s: State, d: nat, later: T.Nanos)
    requires Shaped(s) && Routed(s, d) && R.MayBegin(s.replay, d) && R.Fallback(s.replay.calls[d]).Some?
    requires var call := s.replay.calls[d];
             T.Decide(T.Pruned(s.replay.entries, later), s.replay.capacity, call.key, call.digest, call.thread).Reserve?
    ensures WillReserve(s, d, later)
  {
    hide R.MayBegin, R.Fallback, T.Decide, T.Pruned;
  }

  /** The variable answers a dispatch that nothing else interrupts. */
  lemma VariableEnds(s: State, d: nat, now: T.Nanos) returns (ls: seq<Label>, t: State)
    requires Shaped(s) && Routed(s, d) && Reserving(s.replay, d, now)
    ensures Runs(s, ls) && t == After(s, ls) && OwnLabels(ls, d) && Shaped(t)
    ensures t.replay == s.replay && t.target == s.target && Answered(t, d)
  {
    var v := s.target[d];
    hide V.Runs, V.After, R.OnTop, T.HoldsReservation;
    var a, cell := V.EndsAlone(s.cells[v], d);
    LiftVariable(s, v, a, d);
    OwnOnVariable(v, a, d);
    ls := OnVariable(v, a);
    t := After(s, ls);
    hide Runs, After;
  }

  /** Three calls with one request: `c` will be applied at `now`, and `e` and `d` are to send it again from threads
      that are free; the clock can reach the end of the window, and the codec can store a refusal. */
  ghost predicate SentThrice(s: State, c: nat, e: nat, d: nat, now: T.Nanos) {
    && WillBeApplied(s, c, now) && Unsent(s, e) && Unsent(s, d) && c != e && c != d && e != d
    && SameRequest(s, c, e) && SameRequest(s, c, d)
    && now + T.RETENTION_NS <= T.MAX_CLOCK_NS
    && Encodable(s.replay.calls[c].codec, Refusal(s.replay.calls[c]))
  }

  lemma ThriceFacts(s: State, c: nat, e: nat, d: nat, now: T.Nanos)
    requires SentThrice(s, c, e, d, now)
    ensures WillBeApplied(s, c, now) && Unsent(s, e) && Unsent(s, d) && c != e && c != d && e != d
    ensures Shaped(s) && Routed(s, c) && Routed(s, e) && Routed(s, d) && SameRequest(s, c, e) && SameRequest(s, c, d)
    ensures R.Fallback(s.replay.calls[c]).Some? && RoundTrips(s.replay.calls[c].codec)
    ensures CellFor(s, c).calls[c].expected >= 0
    ensures 0 <= now + T.RETENTION_NS <= T.MAX_CLOCK_NS
    ensures var call := s.replay.calls[c];
            && Encodable(call.codec, AppliedResult(s, c)) && Encodable(call.codec, Refusal(call))
            && call.codec.encode(AppliedResult(s, c)).Some?
            && DecodeTerminal(EncodingFor(s, c, AppliedResult(s, c)), call.codec, call.requestId)
               == Some(AppliedResult(s, c))
  {
    SentFacts(s, c, e);
    SentFacts(s, c, d);
    assert WillBeApplied(s, c, now);
    AppliedDecodes(s, c);
    hide Unsent, SameRequest, R.MayBegin, R.Fallback, T.Decide, T.Pruned, DecodeTerminal, RoundTrips, CellFor;
  }

  lemma AppliedDecodes(s: State, c: nat)
    requires Shaped(s) && Routed(s, c) && CellFor(s, c).calls[c].expected >= 0 && RoundTrips(s.replay.calls[c].codec)
    requires Encodable(s.replay.calls[c].codec, AppliedResult(s, c))
    ensures var call := s.replay.calls[c];
            DecodeTerminal(EncodingFor(s, c, AppliedResult(s, c)), call.codec, call.requestId)
            == Some(AppliedResult(s, c))
  {
    var call := s.replay.calls[c];
    StoredExactly(AppliedResult(s, c), call.codec, call.requestId);
    hide DecodeTerminal, NormalizeTerminal, CellFor, RoundTrips;
  }

  lemma KeepsAll(s: State, init: seq<Cell>, ls: seq<Label>)
    requires Inv(s, init) && Shaped(s) && Faithful(s) && Runs(s, ls)
    ensures Inv(After(s, ls), init) && Shaped(After(s, ls)) && Faithful(After(s, ls))
    ensures After(s, ls).replay.calls == s.replay.calls && After(s, ls).target == s.target
  {
    hide *;
    RunInv(s, init, ls);
    FaithfulStays(s, ls);
  }

  lemma RequestStays(s: State, t: State, c: nat, e: nat)
    requires t.replay.calls == s.replay.calls && Routed(s, c) && Routed(s, e) && SameRequest(s, c, e)
    ensures Routed(t, c) && Routed(t, e) && SameRequest(t, c, e)
  {
  }

  lemma StoredFacts(t: R.State, c: nat, now: T.Nanos, bytes: Bytes, result: Result)
    requires Stored(t, c, now, bytes, result)
    ensures c < |t.calls| == |t.phases| && t.phases[c] == R.Finished(T.Returned(result))
    ensures RF.MadeBy(t, t.calls[c].key, c)
  {
  }

  /** First `c` is applied and its caller told so, and `e` and `d` are still to be sent. */
  lemma FirstSent(s: State, init: seq<Cell>, c: nat, e: nat, d: nat, now: T.Nanos, bytes: Bytes)
    returns (ls: seq<Label>, t: State)
    requires Inv(s, init) && Shaped(s) && Faithful(s) && SentThrice(s, c, e, d, now)
    requires Routed(s, c) && CellFor(s, c).calls[c].expected >= 0
    requires Encodable(s.replay.calls[c].codec, AppliedResult(s, c)) && bytes == EncodingFor(s, c, AppliedResult(s, c))
    ensures Runs(s, ls) && t == After(s, ls) && Inv(t, init) && Shaped(t) && Faithful(t)
    ensures t.replay.calls == s.replay.calls && t.target == s.target
    ensures AppliedDispatch(t, c) && Unsent(t, e) && Unsent(t, d)
    ensures Stored(t.replay, c, now, bytes, AppliedResult(s, c))
    ensures Routed(t, c) && Routed(t, e) && Routed(t, d) && SameRequest(t, c, e) && SameRequest(t, c, d)
  {
    hide *;
    ThriceFacts(s, c, e, d, now);
    ls, t := UndisturbedIsApplied(s, c, now);
    KeepsAll(s, init, ls);
    RequestStays(s, t, c, e);
    RequestStays(s, t, c, d);
    StoredFacts(t.replay, c, now, bytes, AppliedResult(s, c));
    UnsentStays(s, ls, c, e);
    UnsentStays(s, ls, c, d);
  }

  /** Then `e` is given the same answer from the table. */
  lemma SecondSent(s: State, init: seq<Cell>, c: nat, e: nat, d: nat, now: T.Nanos, bytes: Bytes, result: Result)
    returns (ls: seq<Label>, t: State)
    requires Inv(s, init) && Shaped(s) && Faithful(s) && Unsent(s, e) && Unsent(s, d) && c != e && e != d
    requires Routed(s, c) && Routed(s, e) && Routed(s, d) && SameRequest(s, c, e) && SameRequest(s, c, d)
    requires Stored(s.replay, c, now, bytes, result) && R.Fallback(s.replay.calls[c]).Some?
    requires DecodeTerminal(bytes, s.replay.calls[c].codec, s.replay.calls[c].requestId) == Some(result)
    ensures Runs(s, ls) && t == After(s, ls) && Inv(t, init) && Shaped(t) && Faithful(t) && OwnLabels(ls, e)
    ensures t.replay.calls == s.replay.calls && t.target == s.target
    ensures Unsent(t, d) && Anchored(t.replay, c, now, bytes)
    ensures Routed(t, c) && Routed(t, e) && Routed(t, d) && SameRequest(t, c, d)
    ensures |t.replay.phases| == |t.replay.calls| && t.replay.phases[e] == R.Finished(T.Returned(result))
  {
    hide *;
    ls, t := AnsweredFromTable(s, init, c, e, now, bytes, result);
    KeepsAll(s, init, ls);
    RequestStays(s, t, c, e);
    RequestStays(s, t, c, d);
    SentFacts(s, c, e);
    assert |t.replay.phases| == |t.replay.calls| by { Shapes(t, e); }
    UnsentStays(s, ls, e, d);
  }

  lemma Shapes(t: State, e: nat)
    requires Shaped(t) && Routed(t, e)
    ensures |t.replay.phases| == |t.replay.calls| && e < |t.replay.calls|
  {
  }

  lemma FinishedLeft(s: State, ls: seq<Label>, c: nat, x: nat)
    requires Shaped(s) && Runs(s, ls) && OwnLabels(ls, c) && x != c && Routed(s, x) && s.replay.phases[x].Finished?
    ensures Shaped(After(s, ls)) && Routed(After(s, ls), x) && After(s, ls).replay.phases[x] == s.replay.phases[x]
  {
    hide Runs, After, OwnLabels;
    RunLeaves(s, ls, c, x);
  }

  /** A refused dispatch tells its caller. */
  lemma RefusalIsReported(s: State, init: seq<Cell>, d: nat, now: T.Nanos, j: nat)
    returns (ls: seq<Label>, t: State)
    requires Shaped(s) && Routed(s, d) && |init| == |s.cells| && RejectedWithoutEffect(s, init, d, j)
    requires Reserving(s.replay, d, now) && RoundTrips(s.replay.calls[d].codec)
    requires Encodable(s.replay.calls[d].codec, Refusal(s.replay.calls[d]))
    ensures Runs(s, ls) && t == After(s, ls) && OwnLabels(ls, d) && Shaped(t) && Routed(t, d)
    ensures Answered(t, d) && t.replay.phases[d] == R.Finished(T.Returned(Refusal(s.replay.calls[d])))
  {
    var refusal := Refusal(s.replay.calls[d]);
    assert CanTell(s, d, Rejection(PreconditionFailed), refusal);
    hide RejectedWithoutEffect, Runs, After, Encodable, RoundTrips, Reserving, CanTell, EncodingFor;
    ls, t := AnswerIsReported(s, d, now, Rejection(PreconditionFailed), refusal);
    StoredFacts(t.replay, d, now, EncodingFor(s, d, refusal), refusal);
    hide Stored;
  }

  lemma UnsentNotReached(s: State, d: nat)
    requires Unsent(s, d)
    ensures NotReached(s, d)
  {
    hide FreeThread;
  }

  /** Last `d` is sent, a window later: it dispatches again, and its caller is told that the precondition failed. */
  lemma ThirdSent(
      s: State, init: seq<Cell>, c: nat, d: nat, b: seq<Label>, u: State, now: T.Nanos, later: T.Nanos, bytes: Bytes)
    returns (ls: seq<Label>, t: State)
    requires Inv(s, init) && Shaped(s) && Faithful(s) && Routed(s, c) && Routed(s, d) && SameRequest(s, c, d)
    requires AppliedDispatch(s, c) && Unsent(s, d) && RF.MadeBy(s.replay, s.replay.calls[d].key, c)
    requires Runs(s, b) && u == After(s, b) && Unsent(u, d) && Routed(u, c) && Anchored(u.replay, c, now, bytes)
    requires later - now >= T.RETENTION_NS && R.Fallback(s.replay.calls[c]).Some?
    requires Encodable(s.replay.calls[d].codec, Refusal(s.replay.calls[d]))
    ensures Runs(u, ls) && t == After(u, ls) && OwnLabels(ls, d) && Shaped(t) && Routed(t, d)
    ensures Answered(t, d) && t.replay.phases[d] == R.Finished(T.Returned(Refusal(s.replay.calls[d])))
  {
    hide *;
    KeepsAll(s, init, b);
    RequestStays(s, u, c, d);
    SameCall(s, c, d);
    var x, v := DispatchedAgain(u, init, c, d, now, later, bytes);
    RunsAppend(s, b, x);
    UnsentNotReached(s, d);
    var j := RedispatchIsRejected(s, init, c, d, b + x, v);
    assert Routed(v, d) by { StillRouted(u, v, d); }
    var y;
    y, t := RefusalIsReported(v, init, d, later, j);
    RunsAppend(u, x, y);
    OwnAppend(x, y, d);
    ls := x + y;
  }

  /** One request sent three times: as `c` it is applied, as `e` answered from the table, and as `d`, after the window,
      dispatched again and refused.  The state `s1` between has everything that `RedispatchIsRejected` asks for. */
  lemma ForgottenAndSentAgain(s: State, init: seq<Cell>, c: nat, e: nat, d: nat, now: T.Nanos)
    returns (a: seq<Label>, s1: State, b: seq<Label>, t: State, j: nat)
    requires Inv(s, init) && Shaped(s) && Faithful(s) && SentThrice(s, c, e, d, now)
    ensures Runs(s, a) && s1 == After(s, a) && Runs(s1, b) && t == After(s1, b)
    ensures Inv(s1, init) && Shaped(s1) && Faithful(s1) && AppliedDispatch(s1, c) && NotReached(s1, d) && Answered(t, d)
    ensures Routed(s1, c) && Routed(s1, d) && SameRequest(s1, c, d)
    ensures RF.MadeBy(s1.replay, s1.replay.calls[d].key, c)
    ensures R.Runs(s1.replay, CoordinatorPart(b))
            && RH.Removed(s1.replay, CoordinatorPart(b), s1.replay.calls[d].key) > 0
    ensures |init| == |t.cells| && RejectedWithoutEffect(t, init, d, j)
    ensures Routed(s, c) && CellFor(s, c).calls[c].expected >= 0
    ensures Routed(t, c) && Routed(t, e) && Routed(t, d) && |t.replay.phases| == |t.replay.calls|
    ensures t.replay.phases[c] == R.Finished(T.Returned(AppliedResult(s, c)))
    ensures t.replay.phases[e] == R.Finished(T.Returned(AppliedResult(s, c)))
    ensures t.replay.phases[d] == R.Finished(T.Returned(Refusal(s.replay.calls[c])))
  {
    hide *;
    ThriceFacts(s, c, e, d, now);
    SameCall(s, c, d);
    Shapes(s, c);
    var call := s.replay.calls[c];
    var result := AppliedResult(s, c);
    var bytes := EncodingFor(s, c, result);
    a, s1 := FirstSent(s, init, c, e, d, now, bytes);
    StoredFacts(s1.replay, c, now, bytes, result);
    SameCall(s1, c, d);
    UnsentNotReached(s1, d);
    var x, u := SecondSent(s1, init, c, e, d, now, bytes, result);
    var y;
    y, t := ThirdSent(s1, init, c, d, x, u, now, now + T.RETENTION_NS, bytes);
    FinishedLeft(s1, x, e, c);
    FinishedLeft(u, y, d, c);
    FinishedLeft(u, y, d, e);
    RunsAppend(s1, x, y);
    b := x + y;
    j := RedispatchIsRejected(s1, init, c, d, b, t);
    Shapes(t, d);
  }
}
