/** Each call takes effect at one instant.  `RunRefines` says that a run is a run of the atomic table; here every
    answered call has exactly one step of its own in it that answers it, and calls that do not overlap are answered in
    their order. */
module ReplayAtomicity {
  import opened ReplayProtocol
  import opened ReplayInvariant
  import opened ReplayProgress
  import opened ReplayRefinement

  /** The operation is one that can answer call `c`. */
  predicate Answering(op: Simple.Op, c: CallId) {
    op == Simple.Ask(c) || (op.Settle? && op.c == c)
  }

  /** The state after the first `m` steps. */
  ghost function StateAt(s: State, ls: seq<Label>, m: nat): State
    requires Runs(s, ls) && m <= |ls|
    decreases m
  {
    if m == 0 then s else StateAt(Next(s, ls[0]), ls[1..], m - 1)
  }

  lemma {:induction false} StateAtStep(s: State, ls: seq<Label>, m: nat)
    requires Runs(s, ls) && m < |ls|
    ensures Enabled(StateAt(s, ls, m), ls[m])
    ensures StateAt(s, ls, m + 1) == Next(StateAt(s, ls, m), ls[m])
    decreases m
  {
    hide Enabled, Next;
    if m > 0 {
      StateAtStep(Next(s, ls[0]), ls[1..], m - 1);
    } else {
      assert StateAt(s, ls, 1) == StateAt(Next(s, ls[0]), ls[1..], 0);
    }
  }

  lemma {:induction false} StateAtEnd(s: State, ls: seq<Label>)
    requires Runs(s, ls)
    ensures StateAt(s, ls, |ls|) == After(s, ls)
    decreases |ls|
  {
    hide Enabled, Next;
    if ls != [] {
      StateAtEnd(Next(s, ls[0]), ls[1..]);
    }
  }

  lemma {:induction false} StateAtInv(s: State, ls: seq<Label>, m: nat)
    requires Inv(s) && Runs(s, ls) && m <= |ls|
    ensures Inv(StateAt(s, ls, m)) && StateAt(s, ls, m).calls == s.calls
    ensures |StateAt(s, ls, m).phases| == |s.calls|
    decreases m
  {
    hide Enabled, Next, Inv, InvBut;
    InvSized(s, 0);
    if m > 0 {
      NextInv(s, ls[0]);
      StateAtInv(Next(s, ls[0]), ls[1..], m - 1);
    }
  }

  // ---------------------------------------------------------------- one step and the answers

  /** In the atomic table only an answering operation answers a call. */
  lemma {:induction false} AnswersNeedOps(calls: seq<Call>, t: Simple.Table, ops: seq<Simple.Op>, c: CallId)
    requires Simple.Does(calls, t, ops) && c !in t.answers && c in Simple.Result(calls, t, ops).answers
    ensures exists i :: 0 <= i < |ops| && Answering(ops[i], c)
    decreases |ops|
  {
    if !Answering(ops[0], c) {
      assert c !in Simple.Do(calls, t, ops[0]).answers;
      hide Simple.Do, Simple.CanDo;
      AnswersNeedOps(calls, Simple.Do(calls, t, ops[0]), ops[1..], c);
      var i :| 0 <= i < |ops[1..]| && Answering(ops[1..][i], c);
      assert ops[1..][i] == ops[i + 1];
    }
  }

  /** A step keeps every answer, and gives one only to the call that moves, by the one operation of that call in it. */
  lemma StepAnswers(s: State, l: Label, c: CallId)
    requires Inv(s) && Enabled(s, l)
    ensures c in s.answers ==> c in Next(s, l).answers && Next(s, l).answers[c] == s.answers[c]
    ensures c !in s.answers && c in Next(s, l).answers ==>
              && l.c == c && c < |s.phases| && Active(s.phases[c])
              && exists i :: 0 <= i < |Ops(s, l)| && Answering(Ops(s, l)[i], c)
  {
    StepRefines(s, l);
    OpsAreOwn(s, l);
    hide Inv, Enabled, Next, Ops, Simple.Does, Simple.Result;
    if c in s.answers {
      Simple.AnswersAreFinal(s.calls, Abs(s), Ops(s, l), c);
    } else if c in Next(s, l).answers {
      AnswersNeedOps(s.calls, Abs(s), Ops(s, l), c);
      var i :| 0 <= i < |Ops(s, l)| && Answering(Ops(s, l)[i], c);
      assert Ops(s, l)[i] in Ops(s, l);
    }
  }

  /** What has finished stays as it is, whoever moves. */
  lemma FinishedStays(s: State, l: Label, c: CallId)
    requires Enabled(s, l) && c < |s.phases| && s.phases[c].Finished?
    ensures c < |Next(s, l).phases| && Next(s, l).phases[c] == s.phases[c]
  {
    assert l.c != c;
    hide Next, Enabled;
    OtherPhases(s, l);
  }

  // ---------------------------------------------------------------- runs

  lemma {:induction false} AnswerStays(s: State, ls: seq<Label>, c: CallId, a: nat, b: nat)
    requires Inv(s) && Runs(s, ls) && a <= b <= |ls| && c in StateAt(s, ls, a).answers
    ensures c in StateAt(s, ls, b).answers && StateAt(s, ls, b).answers[c] == StateAt(s, ls, a).answers[c]
    decreases b
  {
    hide Inv, Enabled, Next, StateAt;
    if a < b {
      AnswerStays(s, ls, c, a, b - 1);
      StateAtStep(s, ls, b - 1);
      StateAtInv(s, ls, b - 1);
      StepAnswers(StateAt(s, ls, b - 1), ls[b - 1], c);
    }
  }

  lemma {:induction false} FinishedStaysAlong(s: State, ls: seq<Label>, c: CallId, a: nat, b: nat)
    requires Runs(s, ls) && a <= b <= |ls|
    requires c < |StateAt(s, ls, a).phases| && StateAt(s, ls, a).phases[c].Finished?
    ensures c < |StateAt(s, ls, b).phases| && StateAt(s, ls, b).phases[c].Finished?
    decreases b
  {
    hide Enabled, Next, StateAt;
    if a < b {
      FinishedStaysAlong(s, ls, c, a, b - 1);
      StateAtStep(s, ls, b - 1);
      FinishedStays(StateAt(s, ls, b - 1), ls[b - 1], c);
    }
  }

  lemma {:induction false} FirstAnswered(s: State, ls: seq<Label>, c: CallId, m: nat) returns (n: nat)
    requires Runs(s, ls) && m <= |ls|
    requires c !in s.answers && c in StateAt(s, ls, m).answers
    ensures n < m && c !in StateAt(s, ls, n).answers && c in StateAt(s, ls, n + 1).answers
    decreases m
  {
    assert StateAt(s, ls, 0) == s;
    hide StateAt, Runs;
    n := m - 1;
    if c in StateAt(s, ls, n).answers {
      n := FirstAnswered(s, ls, c, n);
    }
  }

  /** Step `n` of the run is one of call `c` itself, between its start and its end, and has its answering operation in
      it; and before that step the call has no answer and after it always one. */
  ghost predicate TakesEffectAt(s: State, ls: seq<Label>, c: CallId, n: nat)
    requires Runs(s, ls)
  {
    && n < |ls| && EffectStep(StateAt(s, ls, n), ls[n], c)
    && forall m | 0 <= m <= |ls| :: c in StateAt(s, ls, m).answers <==> m > n
  }

  ghost predicate EffectStep(s: State, l: Label, c: CallId) {
    && l.c == c && c < |s.phases| && Active(s.phases[c]) && Enabled(s, l)
    && exists i :: 0 <= i < |Ops(s, l)| && Answering(Ops(s, l)[i], c)
  }

  /** Every answered call takes effect at exactly one step; that step gives the answer it has from then on, and the
      call reports that answer when it finishes. */
  lemma TakesEffectOnce(s: State, ls: seq<Label>, c: CallId) returns (n: nat)
    requires Init(s) && Runs(s, ls) && c in After(s, ls).answers
    ensures TakesEffectAt(s, ls, c, n)
    ensures forall m | n < m <= |ls| :: c in StateAt(s, ls, m).answers
                                        && StateAt(s, ls, m).answers[c] == After(s, ls).answers[c]
    ensures forall m | 0 <= m < |ls| && TakesEffectAt(s, ls, c, m) :: m == n
    ensures var t := After(s, ls);
            && c < |t.phases| == |t.calls|
            && (t.phases[c].Finished? ==> t.phases[c].outcome == OutcomeOf(t.calls[c], t.answers[c]))
  {
    InitInv(s);
    assert c !in s.answers;
    hide *;
    StateAtEnd(s, ls);
    n := FirstAnswered(s, ls, c, |ls|);
    AnsweredFrom(s, ls, c, n);
    StateAtInv(s, ls, |ls|);
    Reported(After(s, ls), c);
  }

  lemma AnsweredFrom(s: State, ls: seq<Label>, c: CallId, n: nat)
    requires Inv(s) && Runs(s, ls) && n < |ls| && c in After(s, ls).answers
    requires c !in StateAt(s, ls, n).answers && c in StateAt(s, ls, n + 1).answers
    ensures TakesEffectAt(s, ls, c, n)
    ensures forall m | n < m <= |ls| :: c in StateAt(s, ls, m).answers
                                        && StateAt(s, ls, m).answers[c] == After(s, ls).answers[c]
    ensures forall m | 0 <= m < |ls| && TakesEffectAt(s, ls, c, m) :: m == n
  {
    StateAtEnd(s, ls);
    hide Inv, After, StateAt, EffectStep, Enabled, Next;
    StateAtStep(s, ls, n);
    StateAtInv(s, ls, n);
    EffectOf(StateAt(s, ls, n), ls[n], c);
    forall m | 0 <= m <= |ls|
      ensures c in StateAt(s, ls, m).answers <==> m > n
      ensures m > n ==> StateAt(s, ls, m).answers[c] == StateAt(s, ls, |ls|).answers[c]
    {
      if m > n {
        AnswerStays(s, ls, c, n + 1, m);
        AnswerStays(s, ls, c, m, |ls|);
      } else if c in StateAt(s, ls, m).answers {
        AnswerStays(s, ls, c, m, n);
      }
    }
  }

  lemma Reported(t: State, c: CallId)
    requires Inv(t) && c in t.answers
    ensures c < |t.phases| == |t.calls|
    ensures t.phases[c].Finished? ==> t.phases[c].outcome == OutcomeOf(t.calls[c], t.answers[c])
  {
    hide Inv, InvBut, OutcomeOf;
    InvSized(t, c);
    AnswerFacts(t, c);
    if t.phases[c].Finished? {
      OutcomeIsAnswer(t, c);
    }
  }

  lemma EffectOf(s: State, l: Label, c: CallId)
    requires Inv(s) && Enabled(s, l) && c !in s.answers && c in Next(s, l).answers
    ensures EffectStep(s, l, c)
  {
    hide Inv, Enabled, Next, Ops;
    StepAnswers(s, l, c);
  }

  /** Calls take effect in their real-time order: if `c` has finished in a state in which `d` has not begun, then `c`
      takes effect before that state and `d` after it. */
  lemma EffectsKeepRealTime(s: State, ls: seq<Label>, c: CallId, d: CallId, n: nat, m: nat, k: nat)
    requires Init(s) && Runs(s, ls) && TakesEffectAt(s, ls, c, n) && TakesEffectAt(s, ls, d, k) && m <= |ls|
    requires c < |s.calls| && d < |s.calls| && |StateAt(s, ls, m).phases| == |s.calls|
    requires StateAt(s, ls, m).phases[c].Finished? && StateAt(s, ls, m).phases[d].Idle?
    ensures n < m <= k
  {
    InitInv(s);
    StateAtInv(s, ls, m);
    IdleUnanswered(StateAt(s, ls, m), d);
    hide Init, Inv, StateAt, Enabled, Next, Ops;
    if m <= n {
      FinishedStaysAlong(s, ls, c, m, n);
    }
  }

  lemma IdleUnanswered(s: State, d: CallId)
    requires Inv(s) && d < |s.phases| && s.phases[d].Idle?
    ensures d !in s.answers
  {
    hide Inv, InvBut;
    InvSized(s, d);
    InvSplit(s, d);
  }
}
