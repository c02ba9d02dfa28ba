/** The simple form of the coordinator: a table whose operations are single atomic steps, with no lock,
    no waiting and no clock. */
module IdempotencyTable {
  import opened ReplayCodec
  import opened ReplayTable
  import opened ReplayProtocol

  datatype Slot =
    | Held(digest: Digest, owner: CallId)
    | Done(digest: Digest, owner: CallId, bytes: Bytes)

  datatype Table = Table(capacity: nat, slots: map<Key, Slot>, answers: map<CallId, Answer>)

  /** `Ask` gives call `c` its answer or its reservation; `Settle` ends a reservation. */
  datatype Op =
    | Forget(keys: set<Key>)
    | Ask(c: CallId)
    | Settle(c: CallId, bytes: Bytes, raises: bool)

  ghost predicate CanDo(calls: seq<Call>, t: Table, op: Op) {
    match op
    case Forget(keys) => forall k | k in keys :: k in t.slots && t.slots[k].Done?
    case Ask(c) =>
      && c < |calls| && c !in t.answers
      && var key := calls[c].key;
         // An asked question is answered at once: no answer is possible while another thread holds the key.
         key in t.slots && t.slots[key].Held? && t.slots[key].digest == calls[c].digest ==>
           t.slots[key].owner < |calls| && calls[t.slots[key].owner].thread == calls[c].thread
    case Settle(c, _, _) =>
      c < |calls| && c !in t.answers && calls[c].key in t.slots && t.slots[calls[c].key] == Held(calls[c].digest, c)
  }

  ghost function Do(calls: seq<Call>, t: Table, op: Op): Table
    requires CanDo(calls, t, op)
  {
    match op
    case Forget(keys) => t.(slots := t.slots - keys)
    case Ask(c) =>
      var key := calls[c].key;
      if key !in t.slots then
        if |t.slots| == t.capacity then t.(answers := t.answers[c := NoRoom])
        else t.(slots := t.slots[key := Held(calls[c].digest, c)])
      else if t.slots[key].digest != calls[c].digest then t.(answers := t.answers[c := Conflicted])
      else if t.slots[key].Done? then t.(answers := t.answers[c := Given(t.slots[key].owner, t.slots[key].bytes)])
      else t.(answers := t.answers[c := Reentered])
    case Settle(c, bytes, raises) =>
      t.(slots := t.slots[calls[c].key := Done(calls[c].digest, c, bytes)],
         answers := t.answers[c := if raises then Reraised else Given(c, bytes)])
  }

  ghost predicate Does(calls: seq<Call>, t: Table, ops: seq<Op>)
    decreases |ops|
  {
    ops == [] || (CanDo(calls, t, ops[0]) && Does(calls, Do(calls, t, ops[0]), ops[1..]))
  }

  ghost function Result(calls: seq<Call>, t: Table, ops: seq<Op>): Table
    requires Does(calls, t, ops)
    decreases |ops|
  {
    if ops == [] then t else Result(calls, Do(calls, t, ops[0]), ops[1..])
  }

  lemma {:induction false} DoesAppend(calls: seq<Call>, t: Table, a: seq<Op>, b: seq<Op>)
    requires Does(calls, t, a) && Does(calls, Result(calls, t, a), b)
    ensures Does(calls, t, a + b) && Result(calls, t, a + b) == Result(calls, Result(calls, t, a), b)
    decreases |a|
  {
    hide Do, CanDo;
    if a == [] {
      assert a + b == b;
    } else {
      DoesAppend(calls, Do(calls, t, a[0]), a[1..], b);
      assert (a + b)[1..] == a[1..] + b;
    }
  }

  lemma DoesOne(calls: seq<Call>, t: Table, op: Op)
    requires CanDo(calls, t, op)
    ensures Does(calls, t, [op]) && Result(calls, t, [op]) == Do(calls, t, op)
  {
    hide CanDo, Do;
    var t' := Do(calls, t, op);
    assert [op][1..] == [];
    assert Does(calls, t', []) && Result(calls, t', []) == t';
  }

  /** An answer, once given, is never changed and never given twice. */
  lemma {:induction false} AnswersAreFinal(calls: seq<Call>, t: Table, ops: seq<Op>, c: CallId)
    requires Does(calls, t, ops) && c in t.answers
    ensures c in Result(calls, t, ops).answers && Result(calls, t, ops).answers[c] == t.answers[c]
    ensures forall i | 0 <= i < |ops| :: ops[i] != Ask(c) && (ops[i].Settle? ==> ops[i].c != c)
    decreases |ops|
  {
    if ops != [] {
      assert c in Do(calls, t, ops[0]).answers && Do(calls, t, ops[0]).answers[c] == t.answers[c];
      assert ops[0] != Ask(c) && (ops[0].Settle? ==> ops[0].c != c);
      hide Do, CanDo;
      AnswersAreFinal(calls, Do(calls, t, ops[0]), ops[1..], c);
      forall i | 0 <= i < |ops|
        ensures ops[i] != Ask(c) && (ops[i].Settle? ==> ops[i].c != c)
      {
        if i > 0 {
          assert ops[i] == ops[1..][i - 1];
        }
      }
    }
  }
}

/** Every interleaved run of `execute` calls is a run of the atomic table. */
module ReplayRefinement {
  import opened ReplayCodec
  import opened ReplayTable
  import opened ReplayProtocol
  import opened ReplayInvariant
  import Simple = IdempotencyTable

  function AbsEntry(e: Entry, o: CallId): Simple.Slot {
    if e.InFlight? then Simple.Held(e.digest, o) else Simple.Done(e.digest, o, e.bytes)
  }

  ghost function Abs(s: State): Simple.Table {
    Simple.Table(s.capacity, map k | k in s.entries :: AbsEntry(s.entries[k], OriginOf(s, k)), s.answers)
  }

  ghost function LookOps(s: State, c: CallId): seq<Simple.Op>
    requires c < |s.calls|
  {
    if DecisionFor(s, c).Wait? then [] else [Simple.Ask(c)]
  }

  /** The atomic operations that one step of the coordinator stands for. */
  ghost function Ops(s: State, l: Label): seq<Simple.Op>
    requires Enabled(s, l)
  {
    match l
    case Enter(c) =>
      var now := s.phases[c].initial;
      [Simple.Forget(Stale(s.entries, now))] + LookOps(PrunedState(s, now), c)
    case Resume(c) => LookOps(s, c)
    case Publish(c) => [Simple.Settle(c, s.phases[c].st.bytes, s.phases[c].st.control)]
    case _ => []
  }

  ghost function RunOps(s: State, ls: seq<Label>): seq<Simple.Op>
    requires Runs(s, ls)
    decreases |ls|
  {
    if ls == [] then [] else Ops(s, ls[0]) + RunOps(Next(s, ls[0]), ls[1..])
  }

  ghost predicate Simulates(s: State, ops: seq<Simple.Op>, s': State) {
    Simple.Does(s.calls, Abs(s), ops) && Simple.Result(s.calls, Abs(s), ops) == Abs(s')
  }

  lemma SimulatesOne(s: State, op: Simple.Op, s': State)
    requires Simple.CanDo(s.calls, Abs(s), op) && Simple.Do(s.calls, Abs(s), op) == Abs(s')
    ensures Simulates(s, [op], s')
  {
    hide Abs, Simple.Do, Simple.CanDo, Simple.Result, Simple.Does;
    Simple.DoesOne(s.calls, Abs(s), op);
  }

  lemma PruneAbs(s: State, now: Nanos)
    requires Sized(s)
    ensures Abs(PrunedState(s, now)) == Abs(s).(slots := Abs(s).slots - Stale(s.entries, now))
  {
    var a := Abs(s).slots - Stale(s.entries, now);
    var b := Abs(PrunedState(s, now)).slots;
    assert a.Keys == b.Keys;
    forall k | k in a
      ensures a[k] == b[k]
    {
      hide Expired;
    }
  }

  lemma PruneRefines(s: State, now: Nanos)
    requires Sized(s)
    ensures Simulates(s, [Simple.Forget(Stale(s.entries, now))], PrunedState(s, now))
  {
    var op := Simple.Forget(Stale(s.entries, now));
    assert Simple.CanDo(s.calls, Abs(s), op);
    hide Simulates, Abs, Pruned, PrunedState, Stale, Simple.CanDo;
    PruneAbs(s, now);
    SimulatesOne(s, op, PrunedState(s, now));
  }

  lemma AbsFacts(s: State, c: CallId)
    requires Sized(s) && c < |s.calls|
    ensures Abs(s).slots.Keys == s.entries.Keys && |Abs(s).slots| == |s.entries|
    ensures s.calls[c].key in s.entries ==>
            Abs(s).slots[s.calls[c].key] == AbsEntry(s.entries[s.calls[c].key], s.origin[s.calls[c].key])
  {
    assert |Abs(s).slots.Keys| == |Abs(s).slots|;
    assert |s.entries.Keys| == |s.entries|;
  }

  lemma ReserveAbs(s: State, s': State, k: Key, d: Digest, t: ThreadId, c: CallId)
    requires s'.entries == s.entries[k := InFlight(d, t)] && s'.origin == s.origin[k := c]
    requires s'.capacity == s.capacity && s'.answers == s.answers
    ensures Abs(s') == Abs(s).(slots := Abs(s).slots[k := Simple.Held(d, c)])
  {
    assert Abs(s').slots == Abs(s).slots[k := Simple.Held(d, c)];
  }

  lemma LookAbs(s: State, c: CallId, initial: Nanos)
    requires Sized(s) && c < |s.calls| && OnTop(s, c)
    ensures DecisionFor(s, c).Reserve? ==>
              Abs(LookUp(s, c, initial)) ==
                  Abs(s).(slots := Abs(s).slots[s.calls[c].key := Simple.Held(s.calls[c].digest, c)])
    ensures !DecisionFor(s, c).Reserve? ==>
            Abs(LookUp(s, c, initial)) == Abs(s).(answers := LookUp(s, c, initial).answers)
  {
    hide Decide, OnTop, Popped, Abs;
    var s' := LookUp(s, c, initial);
    if DecisionFor(s, c).Reserve? {
      ReserveAbs(s, s', s.calls[c].key, s.calls[c].digest, s.calls[c].thread, c);
    } else {
      hide Looked;
      AbsFrame(s, s');
    }
  }

  lemma MayAsk(s: State, c: CallId)
    requires Sized(s) && Reserved(s) && c < |s.calls| && c !in s.answers && !DecisionFor(s, c).Wait?
    ensures Simple.CanDo(s.calls, Abs(s), Simple.Ask(c))
  {
    AbsFacts(s, c);
    hide Abs, Owning;
  }

  lemma LookRefines(s: State, c: CallId, initial: Nanos)
    requires Sized(s) && Reserved(s) && c < |s.calls| && OnTop(s, c) && c !in s.answers
    ensures Simulates(s, LookOps(s, c), LookUp(s, c, initial))
  {
    var s' := LookUp(s, c, initial);
    LookAbs(s, c, initial);
    if DecisionFor(s, c).Wait? {
      hide Reserved, OnTop, Looked, Popped, Abs;
      assert Simple.Does(s.calls, Abs(s), []);
    } else {
      hide Reserved, OnTop, Looked, Popped, Simulates, Sized;
      MayAsk(s, c);
      AbsFacts(s, c);
      hide Abs;
      SimulatesOne(s, Simple.Ask(c), s');
    }
  }

  lemma PublishAbs(s: State, s': State, c: CallId, st: Settlement)
    requires Sized(s) && c < |s.calls| && s.calls[c].key in s.entries
    requires s.origin[s.calls[c].key] == c && s.entries[s.calls[c].key].InFlight?
             && s.entries[s.calls[c].key].digest == s.calls[c].digest
    requires c !in s.answers
    requires s'.entries == s.entries[s.calls[c].key := TerminalOf(s.calls[c].digest, st)]
    requires s'.origin == s.origin && s'.capacity == s.capacity
    requires s'.answers == s.answers[c := if st.control then Reraised else Given(c, st.bytes)]
    ensures var op := Simple.Settle(c, st.bytes, st.control);
            Simple.CanDo(s.calls, Abs(s), op) && Simple.Do(s.calls, Abs(s), op) == Abs(s')
  {
    AbsFacts(s, c);
    assert Abs(s').slots == Abs(s).slots[s.calls[c].key := Simple.Done(s.calls[c].digest, c, st.bytes)];
  }

  lemma PublishRefines(s: State, c: CallId)
    requires Inv(s) && c < |s.calls| && OnTop(s, c) && s.phases[c].Publishing?
    ensures Simulates(s, [Simple.Settle(c, s.phases[c].st.bytes, s.phases[c].st.control)],
            PublishStep(s, c, s.phases[c].st))
  {
    hide Inv, InvBut, PhaseTraced, PublishStep, OnTop, Reserved, Owning, Simulates, Abs, Simple.CanDo, Simple.Do;
    InvParts(s);
    var st := s.phases[c].st;
    PublishingFacts(s, c);
    OwnsOrigin(s, c);
    PublishShape(s, c, st);
    var s' := PublishStep(s, c, st);
    PublishAbs(s, s', c, st);
    SimulatesOne(s, Simple.Settle(c, st.bytes, st.control), s');
  }

  lemma OwnsOrigin(s: State, c: CallId)
    requires Inv(s) && c < |s.calls| && Owning(s.phases[c])
    ensures s.calls[c].key in s.entries && s.origin.Keys == s.entries.Keys && s.origin[s.calls[c].key] == c
    ensures s.entries[s.calls[c].key] == InFlight(s.calls[c].digest, s.calls[c].thread)
  {
    hide WaitersBlocked, TerminalsTraced, AnswersTraced, Traced, Stacked, Owning;
  }

  lemma AbsFrame(s: State, s': State)
    requires s'.capacity == s.capacity && s'.entries == s.entries && s'.origin == s.origin
    ensures Abs(s') == Abs(s).(answers := s'.answers)
  {
  }

  lemma EnterRefines(s: State, c: CallId)
    requires Inv(s) && Enabled(s, Enter(c))
    ensures Simulates(s, Ops(s, Enter(c)), Next(s, Enter(c)))
  {
    hide Inv, InvBut, Reserved, LookUp, Pruned, Abs, LookOps, OnTop, Sized, Simulates, Looked, Decide;
    InvParts(s);
    var now := s.phases[c].initial;
    var s1 := PrunedState(s, now);
    LookingFacts(s, c);
    PruneInv(s, now);
    InvParts(s1);
    PruneRefines(s, now);
    OnTopFrame(s, s1, c);
    LookRefines(s1, c, now);
    Chain(s, [Simple.Forget(Stale(s.entries, now))], s1, LookOps(s1, c), LookUp(s1, c, now));
  }

  lemma Chain(s: State, a: seq<Simple.Op>, s1: State, b: seq<Simple.Op>, s2: State)
    requires Simulates(s, a, s1) && s1.calls == s.calls && Simulates(s1, b, s2)
    ensures Simulates(s, a + b, s2)
  {
    hide Abs;
    Simple.DoesAppend(s.calls, Abs(s), a, b);
  }

  lemma InvParts(s: State)
    requires Inv(s)
    ensures Sized(s) && Reserved(s)
  {
  }

  /** One step of the coordinator is the atomic operations it stands for, in that order. */
  lemma {:induction false} StepRefines(s: State, l: Label)
    requires Inv(s) && Enabled(s, l)
    ensures Simulates(s, Ops(s, l), Next(s, l))
  {
    hide LookUp, PublishStep, Inv, InvBut, Reserved, PhaseTraced, Looked, Decide;
    match l {
      case Enter(c) => EnterRefines(s, c);
      case Resume(c) =>
        InvParts(s);
        LookingFacts(s, c);
        LookRefines(s, c, s.phases[c].initial);
      case Publish(c) => PublishRefines(s, c);
      case _ =>
        QuietRefines(s, l);
        hide Next;
    }
  }

  lemma QuietRefines(s: State, l: Label)
    requires Enabled(s, l) && !l.Enter? && !l.Resume? && !l.Publish?
    ensures Simulates(s, [], Next(s, l))
  {
    hide LookUp, PublishStep, PrunedState, Stack;
    hide Fallback, FallbackOf, DispatchBytes, Settle, DecodeOrFallback, InitialClock, Popped, OnTop, MayBegin;
    var s' := Next(s, l);
    assert s'.entries == s.entries && s'.origin == s.origin && s'.answers == s.answers && s'.capacity == s.capacity;
    hide Next, Enabled;
    AbsFrame(s, s');
    assert Simple.Does(s.calls, Abs(s), []);
  }

  /** Every run from every invariant state is a run of the atomic table between the two abstract states. */
  lemma {:induction false} RunRefines(s: State, ls: seq<Label>)
    requires Inv(s) && Runs(s, ls)
    ensures Simulates(s, RunOps(s, ls), After(s, ls))
    decreases |ls|
  {
    hide Next, Enabled, Inv, Abs, Ops;
    if ls == [] {
      assert Simple.Does(s.calls, Abs(s), []);
    } else {
      StepRefines(s, ls[0]);
      NextInv(s, ls[0]);
      RunRefines(Next(s, ls[0]), ls[1..]);
      Chain(s, Ops(s, ls[0]), Next(s, ls[0]), RunOps(Next(s, ls[0]), ls[1..]), After(s, ls));
    }
  }

  /** The operation that answers a call happens in a step of that call, between its start and its end. */
  lemma OpsAreOwn(s: State, l: Label)
    requires Inv(s) && Enabled(s, l)
    ensures forall op | op in Ops(s, l) && !op.Forget? :: op.c == l.c && Active(s.phases[l.c]) && l.c !in s.answers
    ensures forall op | op in Ops(s, l) && op.Forget? :: op.keys == Stale(s.entries, s.phases[l.c].initial)
  {
    hide Inv, InvBut, PhaseTraced, Stale, Pruned, OnTop, Looking, Decide;
    match l {
      case Enter(c) => EnteringIsLooking(s, c); LookingFacts(s, c);
      case Resume(c) => EnteringIsLooking(s, c); LookingFacts(s, c);
      case Publish(c) => PublishingFacts(s, c);
      case _ =>
    }
  }

  lemma EnteringIsLooking(s: State, c: CallId)
    requires c < |s.phases| && (s.phases[c].Entering? || s.phases[c].Resuming?)
    ensures Looking(s.phases[c])
  {
  }

  /** What `execute` returns or raises once the table has given answer `a`. */
  function OutcomeOf(call: Call, a: Answer): Outcome {
    match a
    case Given(_, bytes) => Finish(DecodeOrFallback(bytes, FallbackOf(call), call.codec, call.requestId))
    case Reraised => ControlError
    case Conflicted => ConflictError
    case NoRoom => CapacityError
    case Reentered => ReentryError
  }

  /** A finished call reports the answer of the table; without an answer it never touched the table.
      In particular no call ever loses its reservation. */
  lemma OutcomeIsAnswer(s: State, c: CallId)
    requires Inv(s) && c < |s.calls| && s.phases[c].Finished?
    ensures c in s.answers ==> s.phases[c].outcome == OutcomeOf(s.calls[c], s.answers[c])
    ensures c !in s.answers ==> s.phases[c].outcome.ContractError? || s.phases[c].outcome.ControlError?
    ensures !s.phases[c].outcome.ReservationLost?
  {
    InvSplit(s, c);
    hide Inv, InvBut;
  }

  /** Equal keys and digests mean equal requests, handled with the same codec. */
  ghost predicate Coherent(calls: seq<Call>) {
    forall c, d | 0 <= c < |calls| && 0 <= d < |calls| && calls[c].key == calls[d].key
        && calls[c].digest == calls[d].digest ::
      calls[c].requestId == calls[d].requestId && calls[c].codec == calls[d].codec
  }

  /** A call that was given bytes decodes them: it returns, and never by way of the fallback. */
  lemma GivenBytesDecode(s: State, c: CallId)
    requires Inv(s) && Coherent(s.calls) && c < |s.calls| && c in s.answers && s.answers[c].Given?
    ensures PublishedBy(s, s.answers[c].origin, s.answers[c].bytes)
    ensures DecodeTerminal(s.answers[c].bytes, s.calls[c].codec, s.calls[c].requestId).Some?
    ensures s.phases[c].Finished? ==>
              s.phases[c].outcome ==
                  Returned(DecodeTerminal(s.answers[c].bytes, s.calls[c].codec, s.calls[c].requestId).value)
  {
    AnswerFacts(s, c);
    InvSplit(s, c);
    hide Inv, InvBut, DecodeTerminal, Fallback;
  }

  lemma AnswerFacts(s: State, c: CallId)
    requires Inv(s) && c in s.answers
    ensures c < |s.calls|
    ensures s.answers[c].Given? ==> PublishedBy(s, s.answers[c].origin, s.answers[c].bytes)
    ensures s.answers[c].Given? ==>
              s.calls[s.answers[c].origin].key == s.calls[c].key
              && s.calls[s.answers[c].origin].digest == s.calls[c].digest
  {
    hide Reserved, WaitersBlocked, TerminalsTraced, Traced, Stacked, PublishedBy;
  }

  /** All callers answered from one reservation get the same result, the owner included. */
  lemma Converge(s: State, c: CallId, d: CallId)
    requires Inv(s) && Coherent(s.calls) && c < |s.calls| && d < |s.calls|
    requires c in s.answers && d in s.answers && s.answers[c].Given? && s.answers[d].Given?
    requires s.answers[c].origin == s.answers[d].origin
    ensures s.answers[c].bytes == s.answers[d].bytes
    ensures s.phases[c].Finished? && s.phases[d].Finished? ==>
              s.phases[c].outcome.Returned? && s.phases[c].outcome == s.phases[d].outcome
  {
    GivenBytesDecode(s, c);
    GivenBytesDecode(s, d);
    AnswerFacts(s, c);
    AnswerFacts(s, d);
    hide Inv, DecodeTerminal, Fallback, FallbackOf;
  }
}
