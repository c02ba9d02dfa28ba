/** Any number of `execute` calls on any number of threads, as a transition system.

    A step is one critical section or one piece of code outside the lock.  A label names the call that
    moves and everything its environment decides, so a run is a sequence of labels and every choice of
    scheduling, clock value and dispatch outcome is a different run.

    `origin` and `answers` are history variables: no step reads them to decide what to do. */
module ReplayProtocol {
  import opened Wrappers
  import opened ReplayCodec
  import opened ReplayTable

  type CallId = nat

  /** One call.  `parent` is the call whose dispatch makes this one, if any. */
  datatype Call = Call(thread: ThreadId, parent: Option<CallId>, key: Key, digest: Digest, requestId: string,
      codec: Codec)

  datatype Phase =
    | Idle
    | Prepared                                        // fallback computed, clock not read yet
    | Entering(initial: Nanos)                        // clock read, about to take the lock
    | Waiting(initial: Nanos)                         // inside `wait`
    | Resuming(initial: Nanos)                        // notified, about to take the lock again
    | Dispatching(initial: Nanos)
    | Completing(initial: Nanos, bytes: Bytes)        // dispatch is over, completion clock not read yet
    | Publishing(st: Settlement)
    | Decoding(bytes: Bytes)
    | Finished(outcome: Outcome)

  /** What the table told a call. */
  datatype Answer =
    | Given(origin: CallId, bytes: Bytes)
    | Reraised
    | Conflicted
    | NoRoom
    | Reentered

  datatype State = State(
    calls: seq<Call>,
    capacity: nat,
    entries: map<Key, Entry>,
    phases: seq<Phase>,
    stacks: map<ThreadId, seq<CallId>>,
    origin: map<Key, CallId>,
    answers: map<CallId, Answer>)

  datatype Label =
    | Begin(c: CallId)
    | ReadClock(c: CallId, sample: ClockSample)
    | Enter(c: CallId)
    | Resume(c: CallId)
    | EndDispatch(c: CallId, outcome: DispatchOutcome)
    | Complete(c: CallId, sample: ClockSample)
    | Publish(c: CallId)
    | Decode(c: CallId)

  predicate Active(p: Phase) { !p.Idle? && !p.Finished? }

  /** The call holds a reservation. */
  predicate Owning(p: Phase) { p.Dispatching? || p.Completing? || p.Publishing? }

  predicate Looking(p: Phase) { p.Entering? || p.Waiting? || p.Resuming? }

  function Stack(s: State, t: ThreadId): seq<CallId> {
    if t in s.stacks then s.stacks[t] else []
  }

  predicate OnTop(s: State, c: CallId)
    requires c < |s.calls|
  {
    var stack := Stack(s, s.calls[c].thread);
    |stack| > 0 && stack[|stack| - 1] == c
  }

  function Fallback(call: Call): (b: Option<Bytes>)
    ensures b.Some? ==> DecodeTerminal(b.value, call.codec, call.requestId).Some?
  {
    FallbackBytes(call.codec, call.requestId)
  }

  function FallbackOf(call: Call): Bytes {
    if Fallback(call).Some? then Fallback(call).value else []
  }

  // ---------------------------------------------------------------- steps

  /** A thread runs one call at a time; a nested call is made by the dispatch on top of its stack. */
  predicate MayBegin(s: State, c: CallId)
    requires c < |s.calls| == |s.phases|
  {
    var stack := Stack(s, s.calls[c].thread);
    && s.phases[c].Idle?
    && match s.calls[c].parent
       case None => stack == []
       case Some(p) => |stack| > 0 && stack[|stack| - 1] == p && p < |s.phases| && s.phases[p].Dispatching?
  }

  predicate Enabled(s: State, l: Label) {
    && l.c < |s.calls| == |s.phases|
    && if l.Begin? then MayBegin(s, l.c) else
       && OnTop(s, l.c)
       && match l
          case ReadClock(c, _) => s.phases[c].Prepared?
          case Enter(c) => s.phases[c].Entering?
          case Resume(c) => s.phases[c].Resuming?
          case EndDispatch(c, _) => s.phases[c].Dispatching?
          case Complete(c, _) => s.phases[c].Completing?
          case Publish(c) => s.phases[c].Publishing?
          case Decode(c) => s.phases[c].Decoding?
          case Begin(_) => true
  }

  function Moved(s: State, c: CallId, p: Phase): State
    requires c < |s.phases|
  {
    s.(phases := s.phases[c := p])
  }

  function Popped(s: State, c: CallId): map<ThreadId, seq<CallId>>
    requires c < |s.calls| && OnTop(s, c)
  {
    var t := s.calls[c].thread;
    s.stacks[t := Stack(s, t)[..|Stack(s, t)| - 1]]
  }

  function Ended(s: State, c: CallId, outcome: Outcome): State
    requires c < |s.calls| == |s.phases| && OnTop(s, c)
  {
    Moved(s, c, Finished(outcome)).(stacks := Popped(s, c))
  }

  function Started(s: State, c: CallId): State
    requires c < |s.calls| == |s.phases|
  {
    var t := s.calls[c].thread;
    Moved(s, c, Prepared).(stacks := s.stacks[t := Stack(s, t) + [c]])
  }

  function PrunedState(s: State, now: Nanos): State {
    var kept := Pruned(s.entries, now);
    s.(entries := kept, origin := map k | k in s.origin && k in kept :: s.origin[k])
  }

  function OriginOf(s: State, k: Key): CallId { if k in s.origin then s.origin[k] else 0 }

  function DecisionFor(s: State, c: CallId): Decision
    requires c < |s.calls|
  {
    Decide(s.entries, s.capacity, s.calls[c].key, s.calls[c].digest, s.calls[c].thread)
  }

  /** One turn of the loop, under the lock. */
  function LookUp(s: State, c: CallId, initial: Nanos): (r: State)
    requires c < |s.calls| == |s.phases| && OnTop(s, c)
    ensures r.calls == s.calls && r.capacity == s.capacity && |r.phases| == |s.phases|
  {
    var call := s.calls[c];
    var entries := Looked(s.entries, s.capacity, call.key, call.digest, call.thread);
    match DecisionFor(s, c)
    case Reserve => Moved(s, c, Dispatching(initial)).(entries := entries, origin := s.origin[call.key := c])
    case Full => Ended(s, c, CapacityError).(answers := s.answers[c := NoRoom])
    case Conflict => Ended(s, c, ConflictError).(answers := s.answers[c := Conflicted])
    case Reenter => Ended(s, c, ReentryError).(answers := s.answers[c := Reentered])
    case Hit(bytes) => Moved(s, c, Decoding(bytes)).(answers := s.answers[c := Given(OriginOf(s, call.key), bytes)])
    case Wait => Moved(s, c, Waiting(initial))
  }

  function Woken(p: Phase): Phase { if p.Waiting? then Resuming(p.initial) else p }

  /** `notify_all` wakes every waiter, whatever its key. */
  function Notified(phases: seq<Phase>): (r: seq<Phase>)
    ensures |r| == |phases|
    ensures forall i | 0 <= i < |r| :: r[i] == Woken(phases[i])
  {
    seq(|phases|, i requires 0 <= i < |phases| => Woken(phases[i]))
  }

  function PublishStep(s: State, c: CallId, st: Settlement): (r: State)
    requires c < |s.calls| == |s.phases| && OnTop(s, c)
    ensures r.calls == s.calls && r.capacity == s.capacity && |r.phases| == |s.phases|
  {
    var call := s.calls[c];
    if !HoldsReservation(s.entries, call.key, call.digest, call.thread) then Ended(s, c, ReservationLost)
    else
      var told := s.(entries := s.entries[call.key := TerminalOf(call.digest, st)],
                     phases := Notified(s.phases),
                     answers := s.answers[c := if st.control then Reraised else Given(c, st.bytes)]);
      if st.control then Ended(told, c, ControlError) else Moved(told, c, Decoding(st.bytes))
  }

  function Next(s: State, l: Label): (r: State)
    requires Enabled(s, l)
    ensures r.calls == s.calls && r.capacity == s.capacity && |r.phases| == |s.phases|
  {
    var c := l.c;
    var call := s.calls[c];
    match l
    case Begin(_) =>
      if Fallback(call).None? then Moved(s, c, Finished(ContractError)) else Started(s, c)
    case ReadClock(_, sample) =>
      if InitialClock(sample).Some? then Moved(s, c, Entering(InitialClock(sample).value))
      else Ended(s, c, if sample.ClockControl? then ControlError else ContractError)
    case Enter(_) =>
      var initial := s.phases[c].initial;
      LookUp(PrunedState(s, initial), c, initial)
    case Resume(_) =>
      LookUp(s, c, s.phases[c].initial)
    case EndDispatch(_, outcome) =>
      if outcome.Control? then Moved(s, c, Publishing(Settlement(FallbackOf(call), None, true)))
      else Moved(s, c,
          Completing(s.phases[c].initial, DispatchBytes(outcome, FallbackOf(call), call.codec, call.requestId)))
    case Complete(_, sample) =>
      Moved(s, c, Publishing(Settle(s.phases[c].initial, s.phases[c].bytes, FallbackOf(call), sample)))
    case Publish(_) =>
      PublishStep(s, c, s.phases[c].st)
    case Decode(_) =>
      Ended(s, c, Finish(DecodeOrFallback(s.phases[c].bytes, FallbackOf(call), call.codec, call.requestId)))
  }

  lemma PublishIs(s: State, c: CallId, st: Settlement)
    requires Enabled(s, Publish(c)) && s.phases[c] == Publishing(st)
    ensures OnTop(s, c) && Next(s, Publish(c)) == PublishStep(s, c, st)
  {
    hide OnTop, MayBegin, PublishStep;
  }

  // ---------------------------------------------------------------- runs

  ghost predicate Init(s: State) {
    && 1 <= s.capacity <= MAX_CAPACITY
    && s.entries == map[] && s.origin == map[] && s.answers == map[] && s.stacks == map[]
    && |s.phases| == |s.calls|
    && forall i | 0 <= i < |s.phases| :: s.phases[i].Idle?
  }

  ghost predicate Runs(s: State, ls: seq<Label>)
    decreases |ls|
  {
    ls == [] || (Enabled(s, ls[0]) && Runs(Next(s, ls[0]), ls[1..]))
  }

  ghost function After(s: State, ls: seq<Label>): State
    requires Runs(s, ls)
    decreases |ls|
  {
    if ls == [] then s else After(Next(s, ls[0]), ls[1..])
  }

  lemma {:induction false} RunsAppend(s: State, a: seq<Label>, b: seq<Label>)
    requires Runs(s, a) && Runs(After(s, a), b)
    ensures Runs(s, a + b) && After(s, a + b) == After(After(s, a), b)
    decreases |a|
  {
    hide Next, Enabled;
    if a == [] {
      assert a + b == b;
    } else {
      RunsAppend(Next(s, a[0]), a[1..], b);
      assert (a + b)[1..] == a[1..] + b;
    }
  }

  lemma {:induction false} RunsSplit(s: State, a: seq<Label>, b: seq<Label>)
    requires Runs(s, a + b)
    ensures Runs(s, a) && Runs(After(s, a), b) && After(s, a + b) == After(After(s, a), b)
    decreases |a|
  {
    hide Next, Enabled;
    if a == [] {
      assert a + b == b;
    } else {
      assert (a + b)[1..] == a[1..] + b;
      RunsSplit(Next(s, a[0]), a[1..], b);
    }
  }

  lemma OneStep(s: State, l: Label)
    ensures Runs(s, [l]) <==> Enabled(s, l)
    ensures Enabled(s, l) ==> After(s, [l]) == Next(s, l)
  {
    assert [l][1..] == [];
    hide Enabled, Next;
  }

  lemma NoSteps(s: State)
    ensures Runs(s, []) && After(s, []) == s
  {
  }

  /** No label of the run is one of call `c`. */
  ghost predicate OthersOnly(ls: seq<Label>, c: CallId) {
    forall i | 0 <= i < |ls| :: ls[i].c != c
  }

  // ---------------------------------------------------------------- the invariant

  ghost predicate Sized(s: State) {
    && |s.phases| == |s.calls|
    && 1 <= s.capacity <= MAX_CAPACITY
    && |s.entries| <= s.capacity
    && s.origin.Keys == s.entries.Keys
  }

  /** Every reservation belongs to one active call frame, and every owning frame has its reservation. */
  ghost predicate Reserved(s: State)
    requires Sized(s)
  {
    && (forall k | k in s.entries && s.entries[k].InFlight? ::
          var o := s.origin[k];
          o < |s.calls| && Owning(s.phases[o]) && s.calls[o].key == k &&
          s.entries[k] == InFlight(s.calls[o].digest, s.calls[o].thread))
    && (forall c | 0 <= c < |s.calls| && Owning(s.phases[c]) ::
          s.calls[c].key in s.entries && s.entries[s.calls[c].key].InFlight? && s.origin[s.calls[c].key] == c)
  }

  /** No lost wake-up: what a waiter waits for is still in flight on another thread. */
  ghost predicate WaitersBlocked(s: State)
    requires Sized(s)
  {
    forall c | 0 <= c < |s.calls| && s.phases[c].Waiting? ::
      s.calls[c].key in s.entries &&
      s.entries[s.calls[c].key].InFlight? &&
      s.entries[s.calls[c].key].digest == s.calls[c].digest &&
      s.entries[s.calls[c].key].owner != s.calls[c].thread
  }

  /** `b` is what call `o` put in the table. */
  ghost predicate PublishedBy(s: State, o: CallId, b: Bytes) {
    && o < |s.calls| && o in s.answers
    && (s.answers[o] == Given(o, b) || (s.answers[o].Reraised? && b == FallbackOf(s.calls[o])))
    && Fallback(s.calls[o]).Some?
    && DecodeTerminal(b, s.calls[o].codec, s.calls[o].requestId).Some?
  }

  ghost predicate TerminalsTraced(s: State)
    requires Sized(s)
  {
    forall k | k in s.entries && s.entries[k].Terminal? ::
      var e := s.entries[k];
      var o := s.origin[k];
      && TerminalShape(e)
      && PublishedBy(s, o, e.bytes)
      && s.calls[o].key == k && s.calls[o].digest == e.digest
      && (UnprunableTerminal(e) ==> e.bytes == FallbackOf(s.calls[o]))
  }

  /** What call `c` was told is consistent with where it is now. */
  ghost predicate PhaseTraced(s: State, c: CallId)
    requires Sized(s) && c < |s.calls|
  {
    match s.phases[c]
    case Idle => c !in s.answers
    case Prepared => c !in s.answers && Fallback(s.calls[c]).Some?
    case Entering(_) => c !in s.answers && Fallback(s.calls[c]).Some?
    case Waiting(_) => c !in s.answers && Fallback(s.calls[c]).Some?
    case Resuming(_) => c !in s.answers && Fallback(s.calls[c]).Some?
    case Dispatching(_) => c !in s.answers && Fallback(s.calls[c]).Some?
    case Completing(_, b) =>
      && c !in s.answers && Fallback(s.calls[c]).Some?
      && DecodeTerminal(b, s.calls[c].codec, s.calls[c].requestId).Some?
    case Publishing(st) =>
      && c !in s.answers && Fallback(s.calls[c]).Some?
      && DecodeTerminal(st.bytes, s.calls[c].codec, s.calls[c].requestId).Some?
      && (st.floor.None? ==> st.bytes == FallbackOf(s.calls[c]))
      && (st.control ==> st.floor.None?)
    case Decoding(b) =>
      && c in s.answers && s.answers[c].Given? && s.answers[c].bytes == b && Fallback(s.calls[c]).Some?
    case Finished(outcome) =>
      match outcome
      case Returned(r) =>
        && c in s.answers && s.answers[c].Given?
        && Some(r) ==
           DecodeOrFallback(s.answers[c].bytes, FallbackOf(s.calls[c]), s.calls[c].codec, s.calls[c].requestId)
      case ContractError =>
        c in s.answers ==>
          (s.answers[c].Given? && Fallback(s.calls[c]).Some? &&
           DecodeOrFallback(s.answers[c].bytes, FallbackOf(s.calls[c]), s.calls[c].codec, s.calls[c].requestId).None?)
      case ConflictError => c in s.answers && s.answers[c].Conflicted?
      case CapacityError => c in s.answers && s.answers[c].NoRoom?
      case ReentryError => c in s.answers && s.answers[c].Reentered?
      case ControlError => c in s.answers ==> s.answers[c].Reraised?
      case ReservationLost => false
      case Blocked => false
  }

  /** Whoever was given bytes was given the bytes of a call with the same key and digest. */
  ghost predicate AnswersTraced(s: State)
    requires Sized(s)
  {
    forall c | c in s.answers ::
      && c < |s.calls|
      && (s.answers[c].Given? ==>
            var o := s.answers[c].origin;
            PublishedBy(s, o, s.answers[c].bytes) &&
            s.calls[o].key == s.calls[c].key && s.calls[o].digest == s.calls[c].digest)
  }

  ghost predicate StackFormed(s: State, t: ThreadId)
    requires Sized(s) && t in s.stacks
  {
    var stack := s.stacks[t];
    && (forall i | 0 <= i < |stack| ::
          stack[i] < |s.calls| && s.calls[stack[i]].thread == t && Active(s.phases[stack[i]]))
    && (forall i | 0 <= i < |stack| - 1 :: s.phases[stack[i]].Dispatching?)
    && (forall i, j | 0 <= i < j < |stack| :: stack[i] != stack[j])
    && (forall i | 1 <= i < |stack| :: s.calls[stack[i]].parent == Some(stack[i - 1]))
    && (|stack| > 0 ==> s.calls[stack[0]].parent == None)
  }

  ghost predicate Stacked(s: State)
    requires Sized(s)
  {
    && (forall t | t in s.stacks :: StackFormed(s, t))
    && (forall c | 0 <= c < |s.calls| && Active(s.phases[c]) :: c in Stack(s, s.calls[c].thread))
  }

  ghost predicate Traced(s: State)
    requires Sized(s)
  {
    forall c | 0 <= c < |s.calls| :: PhaseTraced(s, c)
  }

  ghost predicate Inv(s: State) {
    Sized(s) && Reserved(s) && WaitersBlocked(s) && TerminalsTraced(s) && AnswersTraced(s) && Traced(s) && Stacked(s)
  }

  lemma InitInv(s: State)
    requires Init(s)
    ensures Inv(s)
  {
  }
}
