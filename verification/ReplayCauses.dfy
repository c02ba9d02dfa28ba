/** Why calls end as they do: every ending, by what the call found in the table, or by what its environment did, at the
    step that decided it. */
module ReplayCauses {
  import opened ReplayCodec
  import opened ReplayTable
  import opened ReplayProtocol
  import opened ReplayInvariant
  import opened ReplayProgress
  import opened ReplayRefinement
  import opened ReplayAtomicity

  datatype Ending = OtherIntent | NoPlace | OwnReentry | Control | BadCall | GivenBytes

  /** Call `c` has come, or is about to come, to this ending. */
  ghost predicate Has(s: State, c: CallId, e: Ending) {
    && c < |s.phases|
    && match e
       case OtherIntent => s.phases[c] == Finished(ConflictError)
       case NoPlace => s.phases[c] == Finished(CapacityError)
       case OwnReentry => s.phases[c] == Finished(ReentryError)
       case Control => s.phases[c] == Finished(ControlError) || (s.phases[c].Publishing? && s.phases[c].st.control)
       case BadCall => s.phases[c] == Finished(ContractError)
       case GivenBytes => c in s.answers && s.answers[c].Given?
  }

  /** The table that a call finds when it looks: on its way in, right after its prune pass. */
  function Found(s: State, l: Label): map<Key, Entry>
    requires Enabled(s, l)
  {
    if l.Enter? then Pruned(s.entries, s.phases[l.c].initial) else s.entries
  }

  /** The step is one of call `c` that decides for this ending. */
  ghost predicate Causes(s: State, l: Label, c: CallId, e: Ending) {
    && Enabled(s, l) && l.c == c
    && var call := s.calls[c];
       var found := Found(s, l);
       match e
       case OtherIntent =>
         (l.Enter? || l.Resume?) && call.key in found && found[call.key].digest != call.digest
       case NoPlace =>
         (l.Enter? || l.Resume?) && call.key !in found && |found| == s.capacity
       case OwnReentry =>
         (l.Enter? || l.Resume?) && call.key in found && found[call.key] == InFlight(call.digest, call.thread)
       case Control =>
         || (l.ReadClock? && l.sample.ClockControl?)
         || (l.EndDispatch? && l.outcome.Control?)
         || (l.Complete? && l.sample.ClockControl?)
       case BadCall =>
         || (l.Begin? && Fallback(call).None?)
         || (l.ReadClock? && !l.sample.ClockControl? && !(l.sample.Reading? && 0 <= l.sample.n <= MAX_CLOCK_NS))
       case GivenBytes =>
         || ((l.Enter? || l.Resume?) && call.key in found && found[call.key].Terminal?
             && found[call.key].digest == call.digest)
         || (l.Publish? && !s.phases[c].st.control)
  }

  // ---------------------------------------------------------------- steps of other calls

  lemma OthersDecideNothing(s: State, l: Label, c: CallId, e: Ending)
    requires Inv(s) && Enabled(s, l) && l.c != c
    ensures Has(Next(s, l), c, e) <==> Has(s, c, e)
  {
    hide Inv, Next, Enabled;
    OtherPhases(s, l);
    StepAnswers(s, l, c);
  }

  // ---------------------------------------------------------------- looking

  /** The state whose table the call looks at. */
  function Base(s: State, l: Label): State
    requires Enabled(s, l)
  {
    if l.Enter? then PrunedState(s, s.phases[l.c].initial) else s
  }

  lemma LooksAtBase(s: State, l: Label)
    requires Inv(s) && Enabled(s, l) && (l.Enter? || l.Resume?)
    ensures var b := Base(s, l);
            && l.c < |b.calls| == |b.phases| == |s.phases| && OnTop(b, l.c) && l.c !in b.answers
            && b.entries == Found(s, l) && b.capacity == s.capacity && b.calls == s.calls
            && Looking(s.phases[l.c]) && l.c !in s.answers
            && Next(s, l) == LookUp(b, l.c, s.phases[l.c].initial)
  {
    var c := l.c;
    hide Inv, InvBut, LookUp, OnTop, Pruned, MayBegin, Looking, Active, Owning, Fallback;
    EnteringIsLooking(s, c);
    LookingFacts(s, c);
    InvSized(s, c);
    if l.Enter? {
      OnTopFrame(s, PrunedState(s, s.phases[c].initial), c);
    }
  }

  /** Where a decision of the table takes the call. */
  function PhaseFor(d: Decision, initial: Nanos): Phase {
    match d
    case Reserve => Dispatching(initial)
    case Full => Finished(CapacityError)
    case Conflict => Finished(ConflictError)
    case Reenter => Finished(ReentryError)
    case Hit(bytes) => Decoding(bytes)
    case Wait => Waiting(initial)
  }

  lemma LookEnds(b: State, c: CallId, initial: Nanos)
    requires c < |b.calls| == |b.phases| && OnTop(b, c)
    ensures LookUp(b, c, initial).phases[c] == PhaseFor(DecisionFor(b, c), initial)
  {
    hide OnTop, Popped, DecisionFor, Looked, OriginOf;
  }

  lemma LookGives(b: State, c: CallId, initial: Nanos)
    requires c < |b.calls| == |b.phases| && OnTop(b, c) && c !in b.answers
    ensures var t := LookUp(b, c, initial);
            c in t.answers && t.answers[c].Given? <==> DecisionFor(b, c).Hit?
  {
    hide OnTop, Popped, DecisionFor, Looked, OriginOf;
  }

  /** The table's decision, read off the table. */
  lemma DecisionIs(b: State, c: CallId)
    requires c < |b.calls|
    ensures var call := b.calls[c];
            var d := DecisionFor(b, c);
            && (d.Conflict? <==> call.key in b.entries && b.entries[call.key].digest != call.digest)
            && (d.Full? <==> call.key !in b.entries && |b.entries| == b.capacity)
            && (d.Reenter? <==> call.key in b.entries && b.entries[call.key] == InFlight(call.digest, call.thread))
            && (d.Hit? <==>
                  && call.key in b.entries && b.entries[call.key].Terminal?
                  && b.entries[call.key].digest == call.digest)
  {
  }

  lemma LookDecides(s: State, l: Label, e: Ending)
    requires Inv(s) && Enabled(s, l) && (l.Enter? || l.Resume?)
    ensures !Has(s, l.c, e) && (Has(Next(s, l), l.c, e) <==> Causes(s, l, l.c, e))
  {
    hide Inv, Next, Enabled, LookUp, OnTop, Found, DecisionFor, Base, MayBegin;
    LooksAtBase(s, l);
    var b := Base(s, l);
    LookEnds(b, l.c, s.phases[l.c].initial);
    LookGives(b, l.c, s.phases[l.c].initial);
    DecisionIs(b, l.c);
  }

  // ---------------------------------------------------------------- the steps outside the lock

  lemma KeepsAnswers(s: State, l: Label)
    requires Enabled(s, l) && !l.Enter? && !l.Resume? && !l.Publish?
    ensures Next(s, l).answers == s.answers && l.c < |Next(s, l).phases|
  {
    hide LookUp, PublishStep, PrunedState, Stack;
    hide Fallback, FallbackOf, DispatchBytes, Settle, DecodeOrFallback, InitialClock, Popped, OnTop, MayBegin;
  }

  lemma BeginDecides(s: State, l: Label, e: Ending)
    requires Enabled(s, l) && l.Begin?
    ensures Has(Next(s, l), l.c, e) <==> Has(s, l.c, e) || Causes(s, l, l.c, e)
  {
    KeepsAnswers(s, l);
    hide Fallback, Stack, OnTop;
  }

  lemma ClockDecides(s: State, l: Label, e: Ending)
    requires Enabled(s, l) && l.ReadClock?
    ensures Has(Next(s, l), l.c, e) <==> Has(s, l.c, e) || Causes(s, l, l.c, e)
  {
    KeepsAnswers(s, l);
    hide Fallback, Stack, OnTop, Popped, MayBegin;
  }

  lemma DispatchDecides(s: State, l: Label, e: Ending)
    requires Enabled(s, l) && l.EndDispatch?
    ensures Has(Next(s, l), l.c, e) <==> Has(s, l.c, e) || Causes(s, l, l.c, e)
  {
    KeepsAnswers(s, l);
    hide FallbackOf, Stack, OnTop, DispatchBytes, MayBegin;
  }

  lemma CompletionEnds(s: State, l: Label)
    requires Enabled(s, l) && l.Complete?
    ensures l.c < |s.phases| == |Next(s, l).phases| && s.phases[l.c].Completing?
    ensures Next(s, l).phases[l.c].Publishing?
    ensures Next(s, l).phases[l.c].st.control == l.sample.ClockControl?
  {
    hide FallbackOf, Stack, OnTop, MayBegin;
  }

  lemma CompletionDecides(s: State, l: Label, e: Ending)
    requires Enabled(s, l) && l.Complete?
    ensures Has(Next(s, l), l.c, e) <==> Has(s, l.c, e) || Causes(s, l, l.c, e)
  {
    hide Enabled, Next, Found;
    KeepsAnswers(s, l);
    CompletionEnds(s, l);
  }

  lemma PublicationEnds(s: State, l: Label)
    requires Inv(s) && Enabled(s, l) && l.Publish?
    ensures l.c < |s.phases| == |Next(s, l).phases| && s.phases[l.c].Publishing? && l.c !in s.answers
    ensures var st := s.phases[l.c].st;
            && Next(s, l).phases[l.c] == (if st.control then Finished(ControlError) else Decoding(st.bytes))
            && Next(s, l).answers == s.answers[l.c := if st.control then Reraised else Given(l.c, st.bytes)]
  {
    var c := l.c;
    assert s.phases[c].Publishing? && OnTop(s, c);
    hide Inv, InvBut, PhaseTraced, Next, Enabled, PublishStep, OnTop, HoldsReservation, TerminalOf, Popped, Fallback,
        FallbackOf, MayBegin;
    var st := s.phases[c].st;
    PublishingFacts(s, c);
    PublishIs(s, c, st);
    PublishShape(s, c, st);
  }

  lemma PublicationDecides(s: State, l: Label, e: Ending)
    requires Inv(s) && Enabled(s, l) && l.Publish?
    ensures Has(Next(s, l), l.c, e) <==> Has(s, l.c, e) || Causes(s, l, l.c, e)
  {
    hide Inv, Enabled, Next, Found;
    PublicationEnds(s, l);
  }

  lemma DecodeEnds(s: State, l: Label)
    requires Enabled(s, l) && l.Decode?
    ensures l.c < |s.phases| && s.phases[l.c].Decoding?
    ensures l.c < |Next(s, l).phases| && Next(s, l).phases[l.c].Finished?
    ensures var o := Next(s, l).phases[l.c].outcome; o.Returned? || o.ContractError?
  {
    hide FallbackOf, Stack, OnTop, DecodeOrFallback, MayBegin, Popped;
  }

  /** A call that was given bytes does not end in a contract error when it decodes them. */
  lemma DecodeDecides(s: State, l: Label, e: Ending)
    requires Inv(s) && Coherent(s.calls) && Enabled(s, l) && l.Decode?
    ensures Has(Next(s, l), l.c, e) <==> Has(s, l.c, e) || Causes(s, l, l.c, e)
  {
    hide Inv, InvBut, Next, Enabled, Found, Coherent, DecodeTerminal, Fallback, PublishedBy;
    KeepsAnswers(s, l);
    DecodeEnds(s, l);
    InvSized(s, l.c);
    InvSplit(s, l.c);
    NextInv(s, l);
    assert l.c in s.answers && s.answers[l.c].Given?;
    GivenBytesDecode(Next(s, l), l.c);
  }

  // ---------------------------------------------------------------- runs

  /** A step brings a call to an ending exactly if it causes it. */
  lemma StepDecides(s: State, l: Label, c: CallId, e: Ending)
    requires Inv(s) && Coherent(s.calls) && Enabled(s, l)
    ensures Has(Next(s, l), c, e) <==> Has(s, c, e) || Causes(s, l, c, e)
  {
    hide *;
    if l.c != c {
      OthersDecideNothing(s, l, c, e);
      assert !Causes(s, l, c, e) by { CausesOwn(s, l, c, e); }
    } else {
      match l {
        case Begin(_) => BeginDecides(s, l, e);
        case ReadClock(_, _) => ClockDecides(s, l, e);
        case Enter(_) => LookDecides(s, l, e);
        case Resume(_) => LookDecides(s, l, e);
        case EndDispatch(_, _) => DispatchDecides(s, l, e);
        case Complete(_, _) => CompletionDecides(s, l, e);
        case Publish(_) => PublicationDecides(s, l, e);
        case Decode(_) => DecodeDecides(s, l, e);
      }
    }
  }

  lemma CausesOwn(s: State, l: Label, c: CallId, e: Ending)
    ensures Causes(s, l, c, e) ==> l.c == c
  {
    hide Enabled;
  }

  /** Some step of the run is the cause. */
  ghost predicate Caused(s: State, ls: seq<Label>, c: CallId, e: Ending)
    requires Runs(s, ls)
  {
    exists i :: 0 <= i < |ls| && Causes(StateAt(s, ls, i), ls[i], c, e)
  }

  lemma CausedFirst(s: State, ls: seq<Label>, c: CallId, e: Ending)
    requires Runs(s, ls) && ls != []
    ensures Caused(s, ls, c, e) <==> Causes(s, ls[0], c, e) || Caused(Next(s, ls[0]), ls[1..], c, e)
  {
    hide Causes, Enabled, Next;
    var s1 := Next(s, ls[0]);
    assert forall i | 0 <= i < |ls| - 1 :: StateAt(s, ls, i + 1) == StateAt(s1, ls[1..], i) && ls[1..][i] == ls[i + 1];
    if i :| 0 <= i < |ls| && Causes(StateAt(s, ls, i), ls[i], c, e) {
      if i > 0 {
        assert Causes(StateAt(s1, ls[1..], i - 1), ls[1..][i - 1], c, e);
      }
    }
    if Causes(s, ls[0], c, e) {
      assert Causes(StateAt(s, ls, 0), ls[0], c, e);
    }
    if i :| 0 <= i < |ls| - 1 && Causes(StateAt(s1, ls[1..], i), ls[1..][i], c, e) {
      assert Causes(StateAt(s, ls, i + 1), ls[i + 1], c, e);
    }
  }

  lemma {:induction false} RunDecides(s: State, ls: seq<Label>, c: CallId, e: Ending)
    requires Inv(s) && Coherent(s.calls) && Runs(s, ls)
    ensures Has(After(s, ls), c, e) <==> Has(s, c, e) || Caused(s, ls, c, e)
    decreases |ls|
  {
    hide Inv, Has, Causes, Enabled, Next, Coherent;
    if ls != [] {
      CausedFirst(s, ls, c, e);
      StepDecides(s, ls[0], c, e);
      NextInv(s, ls[0]);
      hide Caused;
      RunDecides(Next(s, ls[0]), ls[1..], c, e);
    }
  }

  /** In every run from the start a call comes to an ending exactly if some step of the run is the cause of it. */
  lemma EndsForACause(s: State, ls: seq<Label>, c: CallId, e: Ending)
    requires Init(s) && Coherent(s.calls) && Runs(s, ls)
    ensures Has(After(s, ls), c, e) <==> Caused(s, ls, c, e)
  {
    InitInv(s);
    assert !Has(s, c, e);
    hide *;
    RunDecides(s, ls, c, e);
  }
}
