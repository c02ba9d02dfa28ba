/** Every step of every call keeps the invariant of the protocol, one kind of update at a time. */
module ReplayInvariant {
  import opened Wrappers
  import opened ReplayCodec
  import opened ReplayTable
  import opened ReplayProtocol

  /** The invariant, except that call `c` is between two phases. */
  ghost predicate InvBut(s: State, c: CallId) {
    && Sized(s) && Reserved(s) && WaitersBlocked(s) && TerminalsTraced(s) && AnswersTraced(s) && Stacked(s)
    && TracedBut(s, c)
  }

  ghost predicate TracedBut(s: State, c: CallId)
    requires Sized(s)
  {
    forall d | 0 <= d < |s.calls| && d != c :: PhaseTraced(s, d)
  }

  lemma InvSplit(s: State, c: CallId)
    requires Inv(s)
    ensures InvBut(s, c) && (c < |s.calls| ==> PhaseTraced(s, c))
  {
    hide Reserved, WaitersBlocked, TerminalsTraced, AnswersTraced, Stacked, PhaseTraced;
  }

  lemma InvJoin(s: State, c: CallId)
    requires InvBut(s, c) && (c < |s.calls| ==> PhaseTraced(s, c))
    ensures Inv(s)
  {
    hide Reserved, WaitersBlocked, TerminalsTraced, AnswersTraced, Stacked, PhaseTraced;
  }

  // ---------------------------------------------------------------- what an unrelated update leaves alone

  ghost predicate AnswersGrow(s: State, s': State) {
    forall d | d in s.answers :: d in s'.answers && s'.answers[d] == s.answers[d]
  }

  lemma ReservedFrame(s: State, s': State)
    requires Sized(s) && Sized(s') && Reserved(s)
    requires s'.calls == s.calls && s'.entries == s.entries && s'.origin == s.origin
    requires forall d | 0 <= d < |s.calls| :: Owning(s'.phases[d]) == Owning(s.phases[d])
    ensures Reserved(s')
  {
    hide Owning;
  }

  lemma WaitersFrame(s: State, s': State)
    requires Sized(s) && Sized(s') && WaitersBlocked(s)
    requires s'.calls == s.calls && s'.entries == s.entries
    requires forall d | 0 <= d < |s.calls| && s'.phases[d].Waiting? :: s.phases[d].Waiting?
    ensures WaitersBlocked(s')
  {
  }

  lemma PublishedFrame(s: State, s': State, o: CallId, b: Bytes)
    requires s'.calls == s.calls && AnswersGrow(s, s') && PublishedBy(s, o, b)
    ensures PublishedBy(s', o, b)
  {
  }

  lemma TerminalsFrame(s: State, s': State)
    requires Sized(s) && Sized(s') && TerminalsTraced(s)
    requires s'.calls == s.calls && s'.entries == s.entries && s'.origin == s.origin && AnswersGrow(s, s')
    ensures TerminalsTraced(s')
  {
    hide PublishedBy, TerminalShape, AnswersGrow, UnprunableTerminal, Fallback;
    forall k | k in s'.entries && s'.entries[k].Terminal?
      ensures PublishedBy(s', s'.origin[k], s'.entries[k].bytes)
    {
      PublishedFrame(s, s', s.origin[k], s.entries[k].bytes);
    }
  }

  ghost predicate AnswerOk(s: State, c: CallId, a: Answer) {
    && c < |s.calls|
    && (a.Given? ==>
          (PublishedBy(s, a.origin, a.bytes) &&
           s.calls[a.origin].key == s.calls[c].key && s.calls[a.origin].digest == s.calls[c].digest))
  }

  lemma AnswersFrame(s: State, s': State)
    requires Sized(s) && Sized(s') && AnswersTraced(s)
    requires s'.calls == s.calls && s'.answers == s.answers
    ensures AnswersTraced(s')
  {
  }

  lemma AnswersExtended(s: State, s': State, c: CallId, a: Answer)
    requires Sized(s) && Sized(s') && AnswersTraced(s) && c !in s.answers
    requires s'.calls == s.calls && s'.answers == s.answers[c := a] && AnswerOk(s', c, a)
    ensures AnswersTraced(s') && AnswersGrow(s, s')
  {
    hide PublishedBy;
    forall d | d in s'.answers && d != c && s'.answers[d].Given?
      ensures PublishedBy(s', s'.answers[d].origin, s'.answers[d].bytes)
    {
      PublishedFrame(s, s', s.answers[d].origin, s.answers[d].bytes);
    }
  }

  lemma TracedFrame(s: State, s': State, c: CallId)
    requires Sized(s) && Sized(s') && TracedBut(s, c)
    requires s'.calls == s.calls
    requires forall d | 0 <= d < |s.calls| && d != c ::
             s'.phases[d] == s.phases[d] || (s.phases[d].Waiting? && s'.phases[d] == Woken(s.phases[d]))
    requires s'.answers == s.answers || (c in s'.answers && s'.answers == s.answers[c := s'.answers[c]])
    ensures TracedBut(s', c)
  {
    forall d | 0 <= d < |s.calls| && d != c
      ensures PhaseTraced(s', d)
    {
      assert PhaseTraced(s, d);
    }
  }

  /** Stacks depend on phases only through who is active and who is dispatching below the top. */
  lemma StacksFrame(s: State, s': State)
    requires Sized(s) && Sized(s') && Stacked(s)
    requires s'.calls == s.calls && s'.stacks == s.stacks
    requires forall d | 0 <= d < |s.calls| :: Active(s'.phases[d]) == Active(s.phases[d])
    requires forall d | 0 <= d < |s.calls| && s.phases[d].Dispatching? && !OnTop(s, d) :: s'.phases[d].Dispatching?
    ensures Stacked(s')
  {
    hide Active, StackFormed;
    forall t | t in s'.stacks
      ensures StackFormed(s', t)
    {
      StackFrame(s, s', t);
    }
  }

  lemma StackFrame(s: State, s': State, t: ThreadId)
    requires Sized(s) && Sized(s') && t in s.stacks && StackFormed(s, t)
    requires s'.calls == s.calls && s'.stacks == s.stacks
    requires forall d | 0 <= d < |s.calls| :: Active(s'.phases[d]) == Active(s.phases[d])
    requires forall d | 0 <= d < |s.calls| && s.phases[d].Dispatching? && !OnTop(s, d) :: s'.phases[d].Dispatching?
    ensures StackFormed(s', t)
  {
    hide Active;
    var stack := s.stacks[t];
    forall i | 0 <= i < |stack| - 1
      ensures s'.phases[stack[i]].Dispatching?
    {
      assert stack[i] != stack[|stack| - 1];
    }
  }

  // ---------------------------------------------------------------- what a phase says about one call

  lemma LookingFacts(s: State, c: CallId)
    requires Inv(s) && c < |s.calls| && Looking(s.phases[c])
    ensures InvBut(s, c) && c !in s.answers && Fallback(s.calls[c]).Some? && !Owning(s.phases[c]) && Active(s.phases[c])
  {
    InvSplit(s, c);
    hide InvBut, Inv;
  }

  lemma OpenTraced(s: State, c: CallId)
    requires Sized(s) && c < |s.calls| && c !in s.answers && Fallback(s.calls[c]).Some?
    requires s.phases[c].Prepared? || Looking(s.phases[c]) || s.phases[c].Dispatching?
    ensures PhaseTraced(s, c)
  {
  }

  lemma TurnedAwayTraced(s: State, c: CallId)
    requires Sized(s) && c < |s.calls| && c in s.answers && s.phases[c].Finished?
    requires var a, outcome := s.answers[c], s.phases[c].outcome;
             (a.NoRoom? && outcome.CapacityError?) || (a.Conflicted? && outcome.ConflictError?) ||
             (a.Reentered? && outcome.ReentryError?) || (a.Reraised? && outcome.ControlError?)
    ensures PhaseTraced(s, c)
  {
  }

  lemma DecodingTraced(s: State, c: CallId)
    requires Sized(s) && c < |s.calls| && c in s.answers && s.answers[c].Given? && Fallback(s.calls[c]).Some?
    requires s.phases[c] == Decoding(s.answers[c].bytes)
    ensures PhaseTraced(s, c)
  {
  }

  lemma PublishingFacts(s: State, c: CallId)
    requires Inv(s) && c < |s.calls| && s.phases[c].Publishing?
    ensures InvBut(s, c) && PhaseTraced(s, c) && c !in s.answers && Fallback(s.calls[c]).Some? && Owning(s.phases[c])
    ensures HoldsReservation(s.entries, s.calls[c].key, s.calls[c].digest, s.calls[c].thread)
  {
    InvSplit(s, c);
    assert c !in s.answers && Fallback(s.calls[c]).Some? by { hide InvBut, Inv; }
    hide PhaseTraced, Inv, TracedBut, TerminalsTraced, AnswersTraced, WaitersBlocked, Stacked;
  }

  // ---------------------------------------------------------------- moves and endings

  /** A call on top of its stack changes phase without touching the table. */
  lemma MoveInv(s: State, c: CallId, p: Phase)
    requires InvBut(s, c) && c < |s.calls| && OnTop(s, c) && Active(s.phases[c])
    requires Active(p) && !p.Waiting? && Owning(p) == Owning(s.phases[c])
    requires PhaseTraced(Moved(s, c, p), c)
    ensures Inv(Moved(s, c, p))
  {
    hide Reserved, WaitersBlocked, TerminalsTraced, AnswersTraced, Stacked, PhaseTraced, TracedBut, Inv, OnTop;
    hide Owning, Active;
    var s' := Moved(s, c, p);
    ReservedFrame(s, s');
    WaitersFrame(s, s');
    TerminalsFrame(s, s');
    AnswersFrame(s, s');
    TracedFrame(s, s', c);
    StacksFrame(s, s');
    InvJoin(s', c);
  }

  lemma PopForms(s: State, c: CallId, outcome: Outcome, t: ThreadId)
    requires Sized(s) && c < |s.calls| && OnTop(s, c) && t in s.stacks && StackFormed(s, t)
    requires t != s.calls[c].thread ==> c !in s.stacks[t]
    ensures StackFormed(Ended(s, c, outcome), t)
  {
    var s' := Ended(s, c, outcome);
    var stack := s.stacks[t];
    if t == s.calls[c].thread {
      assert s'.stacks[t] == stack[..|stack| - 1];
      forall i | 0 <= i < |stack| - 1
        ensures s'.phases[stack[i]] == s.phases[stack[i]]
      {
        assert stack[i] != stack[|stack| - 1];
      }
    } else {
      assert s'.stacks[t] == stack;
      assert forall i | 0 <= i < |stack| :: s'.phases[stack[i]] == s.phases[stack[i]];
    }
  }

  lemma PopKeepsStacks(s: State, c: CallId, outcome: Outcome)
    requires Sized(s) && Stacked(s) && c < |s.calls| && OnTop(s, c)
    ensures Stacked(Ended(s, c, outcome))
  {
    var s' := Ended(s, c, outcome);
    forall t | t in s'.stacks
      ensures StackFormed(s', t)
    {
      assert t in s.stacks && StackFormed(s, t);
      PopForms(s, c, outcome, t);
    }
    PopKeepsMembers(s, c, outcome);
  }

  lemma PopKeepsMembers(s: State, c: CallId, outcome: Outcome)
    requires Sized(s) && Stacked(s) && c < |s.calls| && OnTop(s, c)
    ensures forall d | 0 <= d < |s.calls| && Active(Ended(s, c, outcome).phases[d]) ::
              d in Stack(Ended(s, c, outcome), s.calls[d].thread)
  {
    var s' := Ended(s, c, outcome);
    var t0 := s.calls[c].thread;
    hide StackFormed;
    forall d | 0 <= d < |s.calls| && Active(s'.phases[d])
      ensures d in Stack(s', s.calls[d].thread)
    {
      var t := s.calls[d].thread;
      assert d != c && d in Stack(s, t);
      var i :| 0 <= i < |Stack(s, t)| && Stack(s, t)[i] == d;
      if t == t0 {
        assert Stack(s', t)[i] == d;
      }
    }
  }

  lemma FinishedNotOwning(outcome: Outcome)
    ensures !Owning(Finished(outcome))
  {
  }

  /** A call that holds no reservation ends. */
  lemma EndInv(s: State, c: CallId, outcome: Outcome)
    requires InvBut(s, c) && c < |s.calls| && OnTop(s, c) && !Owning(s.phases[c])
    requires PhaseTraced(Ended(s, c, outcome), c)
    ensures Inv(Ended(s, c, outcome))
  {
    hide Reserved, WaitersBlocked, TerminalsTraced, AnswersTraced, Stacked, PhaseTraced, TracedBut, Inv, Popped;
    hide OnTop, Owning;
    var s' := Ended(s, c, outcome);
    FinishedNotOwning(outcome);
    ReservedFrame(s, s');
    WaitersFrame(s, s');
    TerminalsFrame(s, s');
    AnswersFrame(s, s');
    TracedFrame(s, s', c);
    PopKeepsStacks(s, c, outcome);
    InvJoin(s', c);
  }

  lemma PushKeepsStacks(s: State, c: CallId)
    requires Sized(s) && Stacked(s) && c < |s.calls| && MayBegin(s, c)
    ensures Stacked(Started(s, c))
  {
    var s' := Started(s, c);
    forall t | t in s'.stacks
      ensures StackFormed(s', t)
    {
      if t in s.stacks {
        assert StackFormed(s, t);
        assert c !in s.stacks[t];
      }
      PushForms(s, c, t);
    }
    forall d | 0 <= d < |s.calls| && Active(s'.phases[d])
      ensures d in Stack(s', s.calls[d].thread)
    {
      var t := s.calls[d].thread;
      if d == c {
        assert Stack(s', t)[|Stack(s, t)|] == c;
      } else {
        assert d in Stack(s, t);
        var i :| 0 <= i < |Stack(s, t)| && Stack(s, t)[i] == d;
        assert Stack(s', t)[i] == d;
      }
    }
  }

  lemma PushForms(s: State, c: CallId, t: ThreadId)
    requires Sized(s) && c < |s.calls| && MayBegin(s, c) && t in Started(s, c).stacks
    requires t in s.stacks ==> StackFormed(s, t) && c !in s.stacks[t]
    ensures StackFormed(Started(s, c), t)
  {
    var s' := Started(s, c);
    if t == s.calls[c].thread {
      var stack := Stack(s, t);
      assert forall i | 0 <= i < |stack| :: s'.phases[stack[i]] == s.phases[stack[i]];
      assert s'.phases[c] == Prepared;
      PushedForm(s', t, stack, c);
    }
  }

  lemma PushedForm(s: State, t: ThreadId, stack: seq<CallId>, c: CallId)
    requires Sized(s) && t in s.stacks && s.stacks[t] == stack + [c]
    requires c < |s.calls| && s.calls[c].thread == t && s.phases[c].Prepared? && c !in stack
    requires forall i | 0 <= i < |stack| ::
               stack[i] < |s.calls| && s.calls[stack[i]].thread == t && Active(s.phases[stack[i]])
    requires forall i | 0 <= i < |stack| :: s.phases[stack[i]].Dispatching?
    requires forall i, j | 0 <= i < j < |stack| :: stack[i] != stack[j]
    requires forall i | 1 <= i < |stack| :: s.calls[stack[i]].parent == Some(stack[i - 1])
    requires s.calls[if |stack| > 0 then stack[0] else c].parent == None
    requires |stack| > 0 ==> s.calls[c].parent == Some(stack[|stack| - 1])
    ensures StackFormed(s, t)
  {
  }

  lemma StartInv(s: State, c: CallId)
    requires Inv(s) && c < |s.calls| && MayBegin(s, c) && Fallback(s.calls[c]).Some?
    ensures Inv(Started(s, c))
  {
    hide Reserved, WaitersBlocked, TerminalsTraced, AnswersTraced, Stacked, TracedBut, Inv;
    InvSized(s, c);
    var s' := Started(s, c);
    InvSplit(s, c);
    assert c !in s.answers;
    OpenTraced(s', c);
    hide PhaseTraced, Fallback;
    PushKeepsStacks(s, c);
    ReservedFrame(s, s');
    WaitersFrame(s, s');
    TerminalsFrame(s, s');
    AnswersFrame(s, s');
    TracedFrame(s, s', c);
    InvJoin(s', c);
  }

  lemma RefuseInv(s: State, c: CallId)
    requires Inv(s) && c < |s.calls| && s.phases[c].Idle?
    ensures Inv(Moved(s, c, Finished(ContractError)))
  {
    var s' := Moved(s, c, Finished(ContractError));
    InvSplit(s, c);
    assert PhaseTraced(s', c);
    hide Reserved, WaitersBlocked, TerminalsTraced, AnswersTraced, Stacked, PhaseTraced, TracedBut, Inv, OnTop;
    ReservedFrame(s, s');
    WaitersFrame(s, s');
    TerminalsFrame(s, s');
    AnswersFrame(s, s');
    TracedFrame(s, s', c);
    StacksFrame(s, s');
    InvJoin(s', c);
  }

  // ---------------------------------------------------------------- the first critical section

  lemma PruneKeepsTerminals(s: State, now: Nanos)
    requires Sized(s) && TerminalsTraced(s)
    ensures Sized(PrunedState(s, now)) && TerminalsTraced(PrunedState(s, now))
  {
    hide PublishedBy, FallbackOf;
    var s' := PrunedState(s, now);
    PrunedSize(s.entries, now);
    forall k | k in s'.entries && s'.entries[k].Terminal?
      ensures TerminalShape(s'.entries[k]) && s'.entries[k].bytes == s.entries[k].bytes
      ensures s'.entries[k].digest == s.entries[k].digest
      ensures UnprunableTerminal(s'.entries[k]) ==> UnprunableTerminal(s.entries[k])
      ensures PublishedBy(s', s'.origin[k], s'.entries[k].bytes)
    {
      assert s.entries[k].Terminal? && TerminalShape(s.entries[k]);
      PublishedFrame(s, s', s.origin[k], s.entries[k].bytes);
    }
  }

  lemma PruneKeepsReservations(s: State, now: Nanos)
    requires Sized(s) && Sized(PrunedState(s, now)) && Reserved(s) && WaitersBlocked(s)
    ensures Reserved(PrunedState(s, now)) && WaitersBlocked(PrunedState(s, now))
  {
    hide Owning;
  }

  lemma PruneInv(s: State, now: Nanos)
    requires Inv(s)
    ensures Inv(PrunedState(s, now))
  {
    var s' := PrunedState(s, now);
    InvSplit(s, |s.calls|);
    hide Reserved, WaitersBlocked, TerminalsTraced, AnswersTraced, Stacked, PhaseTraced, TracedBut, Inv, OnTop, Pruned;
    PruneKeepsTerminals(s, now);
    PruneKeepsReservations(s, now);
    AnswersFrame(s, s');
    TracedFrame(s, s', |s.calls|);
    StacksFrame(s, s');
    InvJoin(s', |s.calls|);
  }

  /** Recording an answer that has not been given yet. */
  lemma AnswerInv(s: State, c: CallId, a: Answer)
    requires Inv(s) && c < |s.calls| && c !in s.answers && AnswerOk(s, c, a)
    ensures InvBut(s.(answers := s.answers[c := a]), c)
  {
    var s' := s.(answers := s.answers[c := a]);
    assert AnswersGrow(s, s');
    if a.Given? {
      PublishedFrame(s, s', a.origin, a.bytes);
    }
    InvSplit(s, c);
    hide Reserved, WaitersBlocked, TerminalsTraced, AnswersTraced, Stacked, PhaseTraced, TracedBut, Inv, OnTop;
    hide AnswersGrow, PublishedBy;
    ReservedFrame(s, s');
    WaitersFrame(s, s');
    TerminalsFrame(s, s');
    AnswersExtended(s, s', c, a);
    TracedFrame(s, s', c);
    StacksFrame(s, s');
  }

  lemma ReserveKeepsReservations(s: State, c: CallId, initial: Nanos)
    requires Sized(s) && Reserved(s) && WaitersBlocked(s)
    requires c < |s.calls| && OnTop(s, c) && Looking(s.phases[c]) && DecisionFor(s, c).Reserve?
    ensures var s' := LookUp(s, c, initial); Sized(s') && Reserved(s') && WaitersBlocked(s')
  {
    var s' := LookUp(s, c, initial);
    hide OnTop, Popped;
    assert s'.entries == s.entries[s.calls[c].key := InFlight(s.calls[c].digest, s.calls[c].thread)];
    assert s'.entries.Keys == s.entries.Keys + {s.calls[c].key};
    assert s'.phases == s.phases[c := Dispatching(initial)];
    assert !Owning(s.phases[c]) && Owning(s'.phases[c]) && s.calls[c].key !in s.entries && |s.entries| < s.capacity;
    hide Owning, Looking, Decide, Looked, LookUp;
  }

  lemma ReserveKeepsTerminals(s: State, c: CallId, initial: Nanos)
    requires Sized(s) && TerminalsTraced(s)
    requires c < |s.calls| && OnTop(s, c) && DecisionFor(s, c).Reserve? && Sized(LookUp(s, c, initial))
    ensures TerminalsTraced(LookUp(s, c, initial))
  {
    hide TerminalShape, UnprunableTerminal, FallbackOf, PublishedBy, OnTop;
    var s' := LookUp(s, c, initial);
    assert AnswersGrow(s, s');
    forall k | k in s'.entries && s'.entries[k].Terminal?
      ensures PublishedBy(s', s'.origin[k], s'.entries[k].bytes)
    {
      PublishedFrame(s, s', s.origin[k], s.entries[k].bytes);
    }
  }

  lemma ReserveInv(s: State, c: CallId, initial: Nanos)
    requires Inv(s) && c < |s.calls| && OnTop(s, c) && Looking(s.phases[c]) && DecisionFor(s, c).Reserve?
    ensures Inv(LookUp(s, c, initial))
  {
    var s' := LookUp(s, c, initial);
    LookingFacts(s, c);
    hide Reserved, WaitersBlocked, TerminalsTraced, AnswersTraced, Stacked, PhaseTraced, TracedBut, Inv, OnTop;
    hide Decide, Looked, Looking;
    ReserveKeepsReservations(s, c, initial);
    ReserveKeepsTerminals(s, c, initial);
    OpenTraced(s', c);
    AnswersFrame(s, s');
    TracedFrame(s, s', c);
    StacksFrame(s, s');
    InvJoin(s', c);
  }

  lemma WaitingPhase(initial: Nanos)
    ensures Looking(Waiting(initial)) && Active(Waiting(initial)) && !Owning(Waiting(initial))
  {
  }

  lemma WaitBlocks(s: State, c: CallId, initial: Nanos)
    requires Sized(s) && WaitersBlocked(s) && c < |s.calls| && DecisionFor(s, c).Wait?
    ensures WaitersBlocked(Moved(s, c, Waiting(initial)))
  {
  }

  lemma WaitInv(s: State, c: CallId, initial: Nanos)
    requires Inv(s) && c < |s.calls| && OnTop(s, c) && Looking(s.phases[c]) && DecisionFor(s, c).Wait?
    ensures Inv(Moved(s, c, Waiting(initial)))
  {
    hide Reserved, WaitersBlocked, TerminalsTraced, AnswersTraced, Stacked, PhaseTraced, TracedBut, Inv, OnTop;
    hide Decide, Owning, Looking, Fallback;
    InvSized(s, c);
    var s' := Moved(s, c, Waiting(initial));
    LookingFacts(s, c);
    WaitingPhase(initial);
    WaitBlocks(s, c, initial);
    OpenTraced(s', c);
    ReservedFrame(s, s');
    TerminalsFrame(s, s');
    AnswersFrame(s, s');
    TracedFrame(s, s', c);
    StacksFrame(s, s');
    InvJoin(s', c);
  }

  /** The call is told `a` and its `execute` raises. */
  lemma TurnedAway(s: State, c: CallId, a: Answer, outcome: Outcome)
    requires Inv(s) && c < |s.calls| && OnTop(s, c) && Looking(s.phases[c])
    requires || (a.NoRoom? && outcome.CapacityError?)
             || (a.Conflicted? && outcome.ConflictError?)
             || (a.Reentered? && outcome.ReentryError?)
    ensures Inv(Ended(s, c, outcome).(answers := s.answers[c := a]))
  {
    hide InvBut, Inv, PhaseTraced, Looking, Owning;
    LookingFacts(s, c);
    AnswerInv(s, c, a);
    var s' := s.(answers := s.answers[c := a]);
    assert Sized(s') by { hide *; InvSized(s, c); InvSized(s', c); }
    TurnedAwayTraced(Ended(s', c, outcome), c);
    EndInv(s', c, outcome);
  }

  lemma InvSized(s: State, c: CallId)
    requires Inv(s) || InvBut(s, c)
    ensures Sized(s)
  {
  }

  lemma HitAnswer(s: State, c: CallId, bytes: Bytes)
    requires Sized(s) && TerminalsTraced(s) && c < |s.calls| && DecisionFor(s, c) == Hit(bytes)
    ensures AnswerOk(s, c, Given(OriginOf(s, s.calls[c].key), bytes))
  {
    hide PublishedBy, TerminalShape, UnprunableTerminal, FallbackOf;
  }

  lemma HitInv(s: State, c: CallId, bytes: Bytes)
    requires Inv(s) && c < |s.calls| && OnTop(s, c) && Looking(s.phases[c]) && DecisionFor(s, c) == Hit(bytes)
    ensures Inv(Moved(s, c, Decoding(bytes)).(answers := s.answers[c := Given(OriginOf(s, s.calls[c].key), bytes)]))
  {
    hide Inv, PhaseTraced, Decide, Looking, Owning, Reserved, WaitersBlocked, TerminalsTraced, AnswersTraced;
    hide Stacked, TracedBut, OnTop, AnswerOk, OriginOf;
    var a := Given(OriginOf(s, s.calls[c].key), bytes);
    LookingFacts(s, c);
    HitAnswer(s, c, bytes);
    AnswerInv(s, c, a);
    var s' := s.(answers := s.answers[c := a]);
    DecodingTraced(Moved(s', c, Decoding(bytes)), c);
    assert Active(Decoding(bytes)) && Owning(Decoding(bytes)) == false by { DecodingNotOwning(bytes); }
    assert OnTop(s', c) by { OnTopFrame(s, s', c); }
    MoveInv(s', c, Decoding(bytes));
  }

  lemma DecodingNotOwning(bytes: Bytes)
    ensures Active(Decoding(bytes)) && !Owning(Decoding(bytes))
  {
  }

  lemma OnTopFrame(s: State, s': State, c: CallId)
    requires c < |s.calls| && s'.calls == s.calls && s'.stacks == s.stacks
    ensures OnTop(s', c) == OnTop(s, c)
  {
  }

  lemma LookInv(s: State, c: CallId, initial: Nanos)
    requires Inv(s) && c < |s.calls| && OnTop(s, c) && Looking(s.phases[c])
    ensures Inv(LookUp(s, c, initial))
  {
    hide Inv, Decide;
    match DecisionFor(s, c) {
      case Reserve => ReserveInv(s, c, initial);
      case Full => TurnedAway(s, c, NoRoom, CapacityError);
      case Conflict => TurnedAway(s, c, Conflicted, ConflictError);
      case Reenter => TurnedAway(s, c, Reentered, ReentryError);
      case Hit(bytes) => HitInv(s, c, bytes);
      case Wait => WaitInv(s, c, initial);
    }
    assert !DecisionFor(s, c).Reserve? ==>
           Looked(s.entries, s.capacity, s.calls[c].key, s.calls[c].digest, s.calls[c].thread) == s.entries;
  }

  // ---------------------------------------------------------------- the publishing critical section

  /** The state after the publishing critical section, except that the owner has still to move on. */
  ghost function Told(s: State, c: CallId, st: Settlement): State
    requires c < |s.calls| == |s.phases| && OnTop(s, c)
  {
    s.(entries := s.entries[s.calls[c].key := TerminalOf(s.calls[c].digest, st)],
       phases := Notified(s.phases)[c := Decoding(st.bytes)],
       answers := s.answers[c := if st.control then Reraised else Given(c, st.bytes)])
  }

  lemma ToldKeepsReservations(s: State, c: CallId, st: Settlement)
    requires Sized(s) && Reserved(s) && c < |s.calls| && OnTop(s, c) && Owning(s.phases[c])
    ensures Sized(Told(s, c, st)) && Reserved(Told(s, c, st)) && WaitersBlocked(Told(s, c, st))
  {
    var s' := Told(s, c, st);
    assert s'.entries.Keys == s.entries.Keys;
    assert forall d | 0 <= d < |s.calls| && d != c :: Owning(s'.phases[d]) == Owning(s.phases[d]);
    hide Owning;
  }

  lemma ToldKeepsTerminals(s: State, c: CallId)
    requires Sized(s) && Reserved(s) && TerminalsTraced(s) && c < |s.calls| && OnTop(s, c) && s.phases[c].Publishing?
    requires PhaseTraced(s, c) && Sized(Told(s, c, s.phases[c].st))
    ensures TerminalsTraced(Told(s, c, s.phases[c].st))
    ensures PublishedBy(Told(s, c, s.phases[c].st), c, s.phases[c].st.bytes)
  {
    var st := s.phases[c].st;
    var s' := Told(s, c, st);
    assert AnswersGrow(s, s');
    assert PublishedBy(s', c, st.bytes);
    hide PhaseTraced, PublishedBy, FallbackOf;
    forall k | k in s'.entries && s'.entries[k].Terminal? && k != s.calls[c].key
      ensures PublishedBy(s', s'.origin[k], s'.entries[k].bytes)
    {
      PublishedFrame(s, s', s.origin[k], s.entries[k].bytes);
    }
  }

  lemma PublishShape(s: State, c: CallId, st: Settlement)
    requires c < |s.calls| == |s.phases| && OnTop(s, c)
    requires HoldsReservation(s.entries, s.calls[c].key, s.calls[c].digest, s.calls[c].thread)
    ensures PublishStep(s, c, st) == (if st.control then Ended(Told(s, c, st), c, ControlError) else Told(s, c, st))
  {
    assert Notified(s.phases)[c := Decoding(st.bytes)][c := Finished(ControlError)] ==
           Notified(s.phases)[c := Finished(ControlError)];
  }

  lemma ToldPhases(s: State, c: CallId, st: Settlement)
    requires Sized(s) && c < |s.calls| && OnTop(s, c) && Owning(s.phases[c])
    ensures forall d | 0 <= d < |s.calls| :: Active(Told(s, c, st).phases[d]) == Active(s.phases[d])
    ensures forall d | 0 <= d < |s.calls| && d != c :: Told(s, c, st).phases[d] == Woken(s.phases[d])
  {
  }

  lemma ToldInv(s: State, c: CallId)
    requires Inv(s) && c < |s.calls| && OnTop(s, c) && s.phases[c].Publishing?
    ensures InvBut(Told(s, c, s.phases[c].st), c)
  {
    hide Reserved, WaitersBlocked, TerminalsTraced, AnswersTraced, Stacked, PhaseTraced, TracedBut, Inv, OnTop;
    hide PublishedBy, HoldsReservation, Owning, Active, Fallback;
    InvSized(s, c);
    var st := s.phases[c].st;
    var s1 := Told(s, c, st);
    PublishingFacts(s, c);
    ToldPhases(s, c, st);
    ToldKeepsReservations(s, c, st);
    ToldKeepsTerminals(s, c);
    AnswersExtended(s, s1, c, if st.control then Reraised else Given(c, st.bytes));
    TracedFrame(s, s1, c);
    StacksFrame(s, s1);
  }

  lemma PublishInv(s: State, c: CallId)
    requires Inv(s) && c < |s.calls| && OnTop(s, c) && s.phases[c].Publishing?
    ensures HoldsReservation(s.entries, s.calls[c].key, s.calls[c].digest, s.calls[c].thread)
    ensures Inv(PublishStep(s, c, s.phases[c].st))
  {
    var st := s.phases[c].st;
    var s1 := Told(s, c, st);
    hide Inv, InvBut, OnTop, HoldsReservation, PublishStep, Owning, PhaseTraced;
    PublishingFacts(s, c);
    InvSized(s, c);
    PublishShape(s, c, st);
    ToldInv(s, c);
    InvSized(s1, c);
    OnTopFrame(s, s1, c);
    if st.control {
      DecodingNotOwning(st.bytes);
      TurnedAwayTraced(Ended(s1, c, ControlError), c);
      EndInv(s1, c, ControlError);
    } else {
      DecodingTraced(s1, c);
      InvJoin(s1, c);
    }
  }

  // ---------------------------------------------------------------- all steps and all runs

  predicate Local(l: Label) { l.ReadClock? || l.EndDispatch? || l.Complete? || l.Decode? }

  lemma DispatchDecodes(outcome: DispatchOutcome, call: Call)
    requires Fallback(call).Some?
    ensures DecodeTerminal(DispatchBytes(outcome, FallbackOf(call), call.codec, call.requestId), call.codec,
            call.requestId).Some?
  {
    hide DecodeTerminal, NormalizeTerminal, FallbackBytes;
  }

  lemma LocalTraced(s: State, l: Label)
    requires Sized(s) && Enabled(s, l) && Local(l) && PhaseTraced(s, l.c)
    ensures Sized(Next(s, l)) && PhaseTraced(Next(s, l), l.c)
  {
    hide OnTop, DecodeTerminal, FallbackBytes, DecodeOrFallback, InitialClock, DispatchBytes, Popped, Fallback;
    if l.EndDispatch? {
      DispatchDecodes(l.outcome, s.calls[l.c]);
      FallbackDecodes(s.calls[l.c]);
      hide FallbackOf;
    } else if l.Complete? {
      FallbackDecodes(s.calls[l.c]);
      hide FallbackOf;
    } else {
      hide FallbackOf;
    }
  }

  lemma FallbackDecodes(call: Call)
    requires Fallback(call).Some?
    ensures DecodeTerminal(FallbackOf(call), call.codec, call.requestId).Some?
  {
    hide DecodeTerminal, FallbackBytes;
  }

  lemma LocalShape(s: State, l: Label)
    requires Enabled(s, l) && Local(l)
    ensures Active(s.phases[l.c])
    ensures var p := Next(s, l).phases[l.c];
            if p.Finished? then Next(s, l) == Ended(s, l.c, p.outcome) && !Owning(s.phases[l.c])
            else Next(s, l) == Moved(s, l.c, p) && !p.Waiting? && Active(p) && Owning(p) == Owning(s.phases[l.c])
  {
    hide OnTop, DecodeOrFallback, DispatchBytes, Settle, FallbackOf, Popped;
    hide Fallback, LookUp, PublishStep, PrunedState, Stack, InitialClock, MayBegin;
  }

  lemma LocalInv(s: State, l: Label)
    requires Inv(s) && Enabled(s, l) && Local(l)
    ensures Inv(Next(s, l))
  {
    var c := l.c;
    var s' := Next(s, l);
    hide PhaseTraced, InvBut, Inv, OnTop, Owning, Next, Active;
    InvSplit(s, c);
    InvSized(s, c);
    LocalTraced(s, l);
    LocalShape(s, l);
    if s'.phases[c].Finished? {
      EndInv(s, c, s'.phases[c].outcome);
    } else {
      MoveInv(s, c, s'.phases[c]);
    }
  }

  lemma NextInv(s: State, l: Label)
    requires Inv(s) && Enabled(s, l)
    ensures Inv(Next(s, l)) && Next(s, l).calls == s.calls && Next(s, l).capacity == s.capacity
  {
    hide Inv, LookUp, PublishStep, OnTop;
    var c := l.c;
    match l {
      case Begin(_) =>
        if Fallback(s.calls[c]).None? { RefuseInv(s, c); } else { StartInv(s, c); }
      case Enter(_) =>
        PruneInv(s, s.phases[c].initial);
        EnterInv(s, c);
      case Resume(_) =>
        LookInv(s, c, s.phases[c].initial);
      case Publish(_) =>
        PublishInv(s, c);
      case _ =>
        LocalInv(s, l);
        LocalShape(s, l);
    }
  }

  lemma EnterInv(s: State, c: CallId)
    requires Inv(s) && c < |s.calls| == |s.phases| && OnTop(s, c) && s.phases[c].Entering?
    ensures var s1 := PrunedState(s, s.phases[c].initial);
            OnTop(s1, c) && Inv(LookUp(s1, c, s.phases[c].initial))
  {
    hide Inv, LookUp;
    PruneInv(s, s.phases[c].initial);
    LookInv(PrunedState(s, s.phases[c].initial), c, s.phases[c].initial);
  }

  /** Every reachable state satisfies the invariant. */
  lemma {:induction false} RunInv(s: State, ls: seq<Label>)
    requires Inv(s) && Runs(s, ls)
    ensures Inv(After(s, ls)) && After(s, ls).calls == s.calls && After(s, ls).capacity == s.capacity
    decreases |ls|
  {
    hide Next, Enabled, Inv;
    if ls != [] {
      NextInv(s, ls[0]);
      RunInv(Next(s, ls[0]), ls[1..]);
    }
  }
}
