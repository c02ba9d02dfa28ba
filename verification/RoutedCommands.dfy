/** APPLY requests as the routes interpret them: each goes through the one replay coordinator, and its dispatch is one
    `apply` on the variable it names.  Routed call `c` of the coordinator is call `c` of its variable; every variable
    may have further calls (reads, and commands of other code in the process). */
module RoutedCommands {
  import opened Wrappers
  import opened ReplayCodec
  import T = ReplayTable
  import R = ReplayProtocol
  import RI = ReplayInvariant
  import RR = ReplayRefinement
  import RP = ReplayProgress
  import RA = ReplayAtomicity
  import RC = ReplayCauses
  import RH = ReplayHistory
  import RF = ReplayForgetting
  import opened VariableCell
  import V = VariableProtocol

  /** `target[c]` is the variable of routed call `c`. */
  datatype State = State(replay: R.State, cells: seq<V.State>, target: seq<nat>)

  datatype Label = Coordinator(r: R.Label) | Variable(v: nat, l: V.Label)

  /** How `apply` on the variable ends, seen as a dispatch. */
  function DispatchOf(requestId: string, response: Response): T.DispatchOutcome {
    match response
    case Success(version, evidence) => T.Gave(Succeeded(requestId, version, evidence))
    case Rejection(reason) => T.Gave(Rejected(requestId, ApplyCommand, reason))
    case Failure => T.Gave(Failed(requestId, ApplyCommand))
    case Interrupted => T.Control
    case Value(_, _) => T.Gave(Foreign)
  }

  predicate Routed(s: State, c: nat) { c < |s.replay.calls| }

  predicate Shaped(s: State) {
    && |s.replay.phases| == |s.replay.calls| == |s.target|
    && (forall v | 0 <= v < |s.cells| :: |s.replay.calls| <= |s.cells[v].calls| == |s.cells[v].phases|)
    && (forall c | 0 <= c < |s.target| :: s.target[c] < |s.cells| && s.cells[s.target[c]].calls[c].Apply?)
  }

  /** The variable of a routed call. */
  function CellFor(s: State, c: nat): (cell: V.State)
    requires Shaped(s) && Routed(s, c)
    ensures c < |cell.calls| == |cell.phases| && cell.calls[c].Apply?
  {
    s.cells[s.target[c]]
  }

  predicate Enabled(s: State, l: Label) {
    && Shaped(s)
    && match l
       case Coordinator(r) =>
         && R.Enabled(s.replay, r)
         && (r.EndDispatch? ==>
               (CellFor(s, r.c).phases[r.c].Done? &&
                r.outcome == DispatchOf(s.replay.calls[r.c].requestId, CellFor(s, r.c).phases[r.c].response)))
       case Variable(v, l) =>
         && v < |s.cells| && V.Enabled(s.cells[v], l)
         && (Routed(s, l.c) && s.target[l.c] == v ==> s.replay.phases[l.c].Dispatching? && R.OnTop(s.replay, l.c))
  }

  function Next(s: State, l: Label): (t: State)
    requires Enabled(s, l)
    ensures Shaped(t) && t.replay.calls == s.replay.calls && t.target == s.target && |t.cells| == |s.cells|
  {
    match l
    case Coordinator(r) => s.(replay := R.Next(s.replay, r))
    case Variable(v, l) => s.(cells := s.cells[v := V.Next(s.cells[v], l)])
  }

  ghost predicate Runs(s: State, ls: seq<Label>)
    decreases |ls|
  {
    ls == [] || (Enabled(s, ls[0]) && Runs(Next(s, ls[0]), ls[1..]))
  }

  ghost function After(s: State, ls: seq<Label>): State
    requires Runs(s, ls)
    decreases |ls|
  {
    if ls == [] then s else After(Next(s, ls[0]), ls[1..])
  }

  lemma {:induction false} RunsAppend(s: State, a: seq<Label>, b: seq<Label>)
    requires Runs(s, a) && Runs(After(s, a), b)
    ensures Runs(s, a + b) && After(s, a + b) == After(After(s, a), b)
    decreases |a|
  {
    hide Next, Enabled;
    if a == [] {
      assert a + b == b;
    } else {
      RunsAppend(Next(s, a[0]), a[1..], b);
      assert (a + b)[1..] == a[1..] + b;
    }
  }

  lemma {:induction false} RunsSplit(s: State, a: seq<Label>, b: seq<Label>)
    requires Runs(s, a + b)
    ensures Runs(s, a) && Runs(After(s, a), b) && After(s, a + b) == After(After(s, a), b)
    decreases |a|
  {
    hide Next, Enabled;
    if a == [] {
      assert a + b == b;
    } else {
      assert (a + b)[1..] == a[1..] + b;
      RunsSplit(Next(s, a[0]), a[1..], b);
    }
  }

  /** Equal keys and digests mean equal commands to one variable, and the codec of the variable decodes what it
      encodes. */
  ghost predicate Faithful(s: State)
    requires Shaped(s)
  {
    && RR.Coherent(s.replay.calls)
    && (forall c | 0 <= c < |s.replay.calls| :: RoundTrips(s.replay.calls[c].codec))
    && (forall c, d | 0 <= c < |s.replay.calls| && 0 <= d < |s.replay.calls| && SameRequest(s, c, d) ::
          s.target[c] == s.target[d] && SameCommand(CellFor(s, c).calls[c], CellFor(s, d).calls[d]))
  }

  predicate SameRequest(s: State, c: nat, d: nat)
    requires Routed(s, c) && Routed(s, d)
  {
    s.replay.calls[c].key == s.replay.calls[d].key && s.replay.calls[c].digest == s.replay.calls[d].digest
  }

  predicate SameCommand(a: Command, b: Command)
    requires a.Apply? && b.Apply?
  {
    a.valid == b.valid && a.expected == b.expected && a.candidate == b.candidate
  }

  ghost predicate Init(s: State, init: seq<Cell>) {
    && Shaped(s) && R.Init(s.replay) && |init| == |s.cells|
    && forall v | 0 <= v < |s.cells| :: V.Init(s.cells[v], init[v])
  }

  // ---------------------------------------------------------------- gluing the machines

  /** The bytes call `c` would publish for the response its dispatch got. */
  function BytesFor(s: State, c: nat, response: Response): Bytes
    requires Routed(s, c)
  {
    var call := s.replay.calls[c];
    T.DispatchBytes(DispatchOf(call.requestId, response), R.FallbackOf(call), call.codec, call.requestId)
  }

  /** `b` comes from the one dispatch of call `c`, or is its closed failure. */
  ghost predicate Genuine(s: State, c: nat, b: Bytes)
    requires Shaped(s) && Routed(s, c)
  {
    var p := CellFor(s, c).phases[c];
    p.Done? && (b == BytesFor(s, c, p.response) || b == R.FallbackOf(s.replay.calls[c]))
  }

  ghost predicate GlueAt(s: State, c: nat)
    requires Shaped(s) && Routed(s, c)
  {
    && (s.replay.phases[c].Completing? ==> Genuine(s, c, s.replay.phases[c].bytes))
    && (s.replay.phases[c].Publishing? ==> Genuine(s, c, s.replay.phases[c].st.bytes))
    && (c in s.replay.answers && s.replay.answers[c].Given? && s.replay.answers[c].origin == c ==>
          Genuine(s, c, s.replay.answers[c].bytes))
    && (s.replay.phases[c].Dispatching? ==> c !in s.replay.answers)
  }

  ghost predicate CellsInv(cells: seq<V.State>, init: seq<Cell>) {
    |init| == |cells| && forall v | 0 <= v < |cells| :: V.Inv(cells[v], init[v])
  }

  ghost predicate Inv(s: State, init: seq<Cell>) {
    && Shaped(s) && R.Inv(s.replay) && CellsInv(s.cells, init)
    && forall c | 0 <= c < |s.replay.calls| :: GlueAt(s, c)
  }

  lemma StepParts(s: State, l: Label)
    requires Enabled(s, l)
    ensures l.Coordinator? ==>
              R.Enabled(s.replay, l.r) && Next(s, l).replay == R.Next(s.replay, l.r) && Next(s, l).cells == s.cells
    ensures l.Variable? ==>
              && Next(s, l).replay == s.replay && l.v < |s.cells| && V.Enabled(s.cells[l.v], l.l)
              && Next(s, l).cells == s.cells[l.v := V.Next(s.cells[l.v], l.l)]
  {
    hide R.Next, R.Enabled, R.OnTop, V.Next, V.Enabled;
  }

  /** The step of call `c` itself keeps the glue. */
  lemma OwnGlue(s: State, l: R.Label)
    requires Shaped(s) && R.Inv(s.replay) && Enabled(s, Coordinator(l)) && GlueAt(s, l.c)
    ensures GlueAt(Next(s, Coordinator(l)), l.c)
  {
    hide R.Inv;
    match l {
      case Enter(_) => LookGlue(s, l);
      case Resume(_) => LookGlue(s, l);
      case Publish(_) => PublishGlue(s, l);
      case _ => LocalGlue(s, l);
    }
  }

  /** Where a step that does not look at the table takes its call, and with what bytes. */
  ghost predicate TakesBytes(l: R.Label, call: R.Call, p: R.Phase, q: R.Phase) {
    match q
    case Dispatching(_) => false
    case Completing(_, bytes) =>
      l.EndDispatch? && bytes == T.DispatchBytes(l.outcome, R.FallbackOf(call), call.codec, call.requestId)
    case Publishing(st) =>
      || (l.EndDispatch? && st.bytes == R.FallbackOf(call))
      || (p.Completing? && (st.bytes == R.FallbackOf(call) || st.bytes == p.bytes))
    case _ => true
  }

  /** The steps that do not look at the table. */
  lemma LocalNext(s: R.State, l: R.Label)
    requires R.Enabled(s, l) && !l.Enter? && !l.Resume? && !l.Publish?
    ensures R.Next(s, l).answers == s.answers
    ensures TakesBytes(l, s.calls[l.c], s.phases[l.c], R.Next(s, l).phases[l.c])
  {
    hide R.OnTop, R.MayBegin, R.Popped, R.Fallback, R.FallbackOf, T.DispatchBytes, DecodeOrFallback, T.InitialClock;
    hide R.LookUp, R.PublishStep, R.PrunedState, R.Stack;
  }

  lemma LocalGlue(s: State, l: R.Label)
    requires Shaped(s) && Enabled(s, Coordinator(l)) && GlueAt(s, l.c)
    requires !l.Enter? && !l.Resume? && !l.Publish?
    ensures GlueAt(Next(s, Coordinator(l)), l.c)
  {
    hide R.Next, R.OnTop, R.MayBegin, R.FallbackOf, T.DispatchBytes, DispatchOf;
    LocalNext(s.replay, l);
  }

  /** The step in which a call looks at the table, and the table it looks at. */
  lemma StepLook(s: R.State, l: R.Label) returns (base: R.State)
    requires R.Inv(s) && R.Enabled(s, l) && (l.Enter? || l.Resume?)
    ensures R.Inv(base) && l.c < |base.calls| == |base.phases| && R.OnTop(base, l.c) && l.c !in base.answers
    ensures R.Next(s, l) == R.LookUp(base, l.c, s.phases[l.c].initial)
  {
    var c := l.c;
    RR.EnteringIsLooking(s, c);
    RI.LookingFacts(s, c);
    RI.InvSized(s, c);
    hide R.Inv, R.LookUp, R.OnTop, T.Pruned, R.MayBegin, R.Looking;
    base := s;
    if l.Enter? {
      base := R.PrunedState(s, s.phases[c].initial);
      RI.PruneInv(s, s.phases[c].initial);
      RI.OnTopFrame(s, base, c);
    }
  }

  lemma LookGlue(s: State, l: R.Label)
    requires Shaped(s) && R.Inv(s.replay) && Enabled(s, Coordinator(l)) && (l.Enter? || l.Resume?) && GlueAt(s, l.c)
    ensures GlueAt(Next(s, Coordinator(l)), l.c)
  {
    hide R.Inv, R.Next, R.LookUp, Genuine, R.OnTop;
    var base := StepLook(s.replay, l);
    LookAnswer(base, l.c, s.replay.phases[l.c].initial);
  }

  lemma LookAnswer(s: R.State, c: nat, initial: T.Nanos)
    requires R.Inv(s) && c < |s.calls| && R.OnTop(s, c) && c !in s.answers
    ensures var t := R.LookUp(s, c, initial);
            && (c in t.answers && t.answers[c].Given? ==> t.answers[c].origin != c)
            && (t.phases[c].Dispatching? ==> c !in t.answers)
            && !t.phases[c].Completing? && !t.phases[c].Publishing?
  {
    RI.InvSized(s, c);
    if R.DecisionFor(s, c).Hit? {
      HitOrigin(s, c);
    }
    AnswerOfLook(s, c, initial);
    NoAnswerToOwner(s, c, initial);
    hide R.Inv, R.OnTop, R.LookUp, R.DecisionFor, R.OriginOf;
    RP.LookShape(s, c, initial);
  }

  lemma AnswerOfLook(s: R.State, c: nat, initial: T.Nanos)
    requires c < |s.calls| == |s.phases| && R.OnTop(s, c) && c !in s.answers
    ensures var t := R.LookUp(s, c, initial);
            c in t.answers && t.answers[c].Given? ==>
              R.DecisionFor(s, c).Hit? && t.answers[c].origin == R.OriginOf(s, s.calls[c].key)
  {
    hide R.OnTop, R.Popped, R.DecisionFor, T.Looked, T.Decide, R.OriginOf;
  }

  lemma NoAnswerToOwner(s: R.State, c: nat, initial: T.Nanos)
    requires c < |s.calls| == |s.phases| && R.OnTop(s, c) && c !in s.answers
    ensures var t := R.LookUp(s, c, initial); t.phases[c].Dispatching? ==> c !in t.answers
  {
    hide R.OnTop, R.Popped, R.DecisionFor, T.Looked, T.Decide, R.OriginOf;
  }

  lemma HitOrigin(s: R.State, c: nat)
    requires R.Inv(s) && c < |s.calls| && R.DecisionFor(s, c).Hit?
    ensures R.OriginOf(s, s.calls[c].key) in s.answers
  {
    hide R.Reserved, R.WaitersBlocked, R.AnswersTraced, R.Traced, R.Stacked, T.TerminalShape, T.UnprunableTerminal;
  }

  lemma GenuineFrame(s: State, s': State, c: nat, b: Bytes)
    requires Shaped(s) && Shaped(s') && Routed(s, c) && Genuine(s, c, b)
    requires s'.replay.calls == s.replay.calls && s'.cells == s.cells && s'.target == s.target
    ensures Genuine(s', c, b)
  {
    hide R.FallbackOf, T.DispatchBytes, DispatchOf;
  }

  lemma PublishedAnswer(s: R.State, c: nat)
    requires R.Inv(s) && R.Enabled(s, R.Publish(c))
    ensures c < |s.calls| == |s.phases| && s.phases[c].Publishing?
    ensures var t := R.Next(s, R.Publish(c));
            && (c in t.answers && t.answers[c].Given? ==> t.answers[c].bytes == s.phases[c].st.bytes)
            && (t.phases[c].Decoding? || t.phases[c].Finished?)
  {
    hide R.Inv, RI.InvBut, R.PublishStep, R.OnTop, R.Popped, T.TerminalOf, R.FallbackOf, R.MayBegin;
    RI.PublishingFacts(s, c);
    RI.PublishShape(s, c, s.phases[c].st);
    hide R.Enabled, R.PhaseTraced;
  }

  lemma PublishGlue(s: State, l: R.Label)
    requires Shaped(s) && R.Inv(s.replay) && Enabled(s, Coordinator(l)) && l.Publish? && GlueAt(s, l.c)
    ensures GlueAt(Next(s, Coordinator(l)), l.c)
  {
    hide R.Inv, R.Next, R.Enabled, Genuine, CellFor, Shaped, Next;
    StepParts(s, Coordinator(l));
    assert l == R.Publish(l.c);
    PublishedAnswer(s.replay, l.c);
    GenuineFrame(s, Next(s, Coordinator(l)), l.c, s.replay.phases[l.c].st.bytes);
  }

  /** The glue of a call depends on its own phase and answer and, once it is done, on the response of its `apply`. */
  lemma GlueFrame(s: State, s': State, c: nat)
    requires Shaped(s) && Shaped(s') && Routed(s, c) && GlueAt(s, c)
    requires s'.replay.calls == s.replay.calls
    requires s'.replay.phases[c] == s.replay.phases[c] || s'.replay.phases[c] == R.Woken(s.replay.phases[c])
    requires c in s'.replay.answers <==> c in s.replay.answers
    requires c in s.replay.answers ==> s'.replay.answers[c] == s.replay.answers[c]
    requires CellFor(s, c).phases[c].Done? ==> CellFor(s', c).phases[c] == CellFor(s, c).phases[c]
    ensures GlueAt(s', c)
  {
    hide R.FallbackOf, T.DispatchBytes, DispatchOf, CellFor;
  }

  lemma CoordinatorInv(s: State, init: seq<Cell>, l: R.Label)
    requires Inv(s, init) && Enabled(s, Coordinator(l))
    ensures Inv(Next(s, Coordinator(l)), init)
  {
    var s' := Next(s, Coordinator(l));
    hide R.Inv, CellsInv, R.Next, R.Enabled, GlueAt, R.Woken;
    RI.NextInv(s.replay, l);
    RP.OtherPhases(s.replay, l);
    OwnGlue(s, l);
    forall c | 0 <= c < |s.replay.calls|
      ensures GlueAt(s', c)
    {
      if c != l.c {
        RA.StepAnswers(s.replay, l, c);
        GlueFrame(s, s', c);
      }
    }
  }

  lemma CellsStep(cells: seq<V.State>, init: seq<Cell>, v: nat, l: V.Label)
    requires CellsInv(cells, init) && v < |cells| && V.Enabled(cells[v], l)
    ensures CellsInv(cells[v := V.Next(cells[v], l)], init)
  {
    hide V.Inv, V.Next, V.Enabled;
    V.NextInv(cells[v], init[v], l);
  }

  lemma VariableInv(s: State, init: seq<Cell>, v: nat, l: V.Label)
    requires Inv(s, init) && Enabled(s, Variable(v, l))
    ensures Inv(Next(s, Variable(v, l)), init)
  {
    hide R.Inv, CellsInv, V.Next, V.Enabled, GlueAt, R.OnTop;
    var s' := Next(s, Variable(v, l));
    CellsStep(s.cells, init, v, l);
    V.StepPhase(s.cells[v], l);
    forall c | 0 <= c < |s.replay.calls|
      ensures GlueAt(s', c)
    {
      GlueFrame(s, s', c);
    }
  }

  /** Every reachable state of the composition satisfies the invariant. */
  lemma {:induction false} RunInv(s: State, init: seq<Cell>, ls: seq<Label>)
    requires Inv(s, init) && Runs(s, ls)
    ensures Inv(After(s, ls), init)
    ensures After(s, ls).replay.calls == s.replay.calls && After(s, ls).target == s.target
    decreases |ls|
  {
    hide Next, Enabled, Inv;
    if ls != [] {
      StepInv(s, init, ls[0]);
      RunInv(Next(s, ls[0]), init, ls[1..]);
    }
  }

  lemma StepInv(s: State, init: seq<Cell>, l: Label)
    requires Inv(s, init) && Enabled(s, l)
    ensures Inv(Next(s, l), init)
  {
    hide Inv, Next, Enabled;
    match l {
      case Coordinator(r) => CoordinatorInv(s, init, r);
      case Variable(v, l) => VariableInv(s, init, v, l);
    }
  }

  lemma InitInv(s: State, init: seq<Cell>)
    requires Init(s, init)
    ensures Inv(s, init)
  {
    R.InitInv(s.replay);
    assert CellsInv(s.cells, init) by {
      forall v | 0 <= v < |s.cells|
        ensures V.Inv(s.cells[v], init[v])
      {
        V.InitInv(s.cells[v], init[v]);
      }
    }
    hide R.Inv, CellsInv;
  }

  lemma InvParts(s: State, init: seq<Cell>)
    requires Inv(s, init)
    ensures Shaped(s) && R.Inv(s.replay) && |init| == |s.cells|
    ensures forall v | 0 <= v < |s.cells| :: V.Inv(s.cells[v], init[v])
  {
    hide R.Inv, V.Inv;
  }

  // ---------------------------------------------------------------- each machine runs on its own

  function CoordinatorStep(l: Label): seq<R.Label> { if l.Coordinator? then [l.r] else [] }

  function VariableStep(l: Label, v: nat): seq<V.Label> { if l.Variable? && l.v == v then [l.l] else [] }

  /** The coordinator's part of a run. */
  function CoordinatorPart(ls: seq<Label>): seq<R.Label> {
    if ls == [] then [] else CoordinatorStep(ls[0]) + CoordinatorPart(ls[1..])
  }

  /** The part of a run that belongs to variable `v`. */
  function VariablePart(ls: seq<Label>, v: nat): seq<V.Label> {
    if ls == [] then [] else VariableStep(ls[0], v) + VariablePart(ls[1..], v)
  }

  lemma ConsRuns(s: R.State, l: R.Label, ls: seq<R.Label>)
    requires R.Enabled(s, l) && R.Runs(R.Next(s, l), ls)
    ensures R.Runs(s, [l] + ls) && R.After(s, [l] + ls) == R.After(R.Next(s, l), ls)
  {
    hide R.Enabled, R.Next;
    assert ([l] + ls)[1..] == ls;
  }

  lemma ConsVariableRuns(s: V.State, l: V.Label, ls: seq<V.Label>)
    requires V.Enabled(s, l) && V.Runs(V.Next(s, l), ls)
    ensures V.Runs(s, [l] + ls) && V.After(s, [l] + ls) == V.After(V.Next(s, l), ls)
  {
    hide V.Enabled, V.Next;
    assert ([l] + ls)[1..] == ls;
  }

  /** A run of the composition is a run of the coordinator. */
  lemma {:induction false} CoordinatorRuns(s: State, ls: seq<Label>)
    requires Runs(s, ls)
    ensures R.Runs(s.replay, CoordinatorPart(ls)) && R.After(s.replay, CoordinatorPart(ls)) == After(s, ls).replay
    decreases |ls|
  {
    if ls != [] {
      hide Next, Enabled, R.Next, R.Enabled;
      var rest := CoordinatorPart(ls[1..]);
      StepParts(s, ls[0]);
      CoordinatorRuns(Next(s, ls[0]), ls[1..]);
      hide R.Runs, R.After;
      if ls[0].Coordinator? {
        ConsRuns(s.replay, ls[0].r, rest);
      } else {
        assert [] + rest == rest;
      }
    }
  }

  /** A run of the composition is a run of each variable. */
  lemma {:induction false} VariableRuns(s: State, ls: seq<Label>, v: nat)
    requires Runs(s, ls) && v < |s.cells|
    ensures |After(s, ls).cells| == |s.cells|
    ensures V.Runs(s.cells[v], VariablePart(ls, v)) && V.After(s.cells[v], VariablePart(ls, v)) == After(s, ls).cells[v]
    decreases |ls|
  {
    if ls != [] {
      hide Next, Enabled, V.Next, V.Enabled;
      var rest := VariablePart(ls[1..], v);
      StepParts(s, ls[0]);
      VariableRuns(Next(s, ls[0]), ls[1..], v);
      hide V.Runs, V.After;
      if ls[0].Variable? && ls[0].v == v {
        ConsVariableRuns(s.cells[v], ls[0].l, rest);
      } else {
        assert [] + rest == rest;
      }
    }
  }

  lemma {:induction false} CoordinatorPartAppend(a: seq<Label>, b: seq<Label>)
    ensures CoordinatorPart(a + b) == CoordinatorPart(a) + CoordinatorPart(b)
    decreases |a|
  {
    hide CoordinatorStep;
    if a == [] {
      assert a + b == b;
    } else {
      CoordinatorPartAppend(a[1..], b);
      assert (a + b)[1..] == a[1..] + b;
      Associative(CoordinatorStep(a[0]), CoordinatorPart(a[1..]), CoordinatorPart(b));
    }
  }

  lemma Associative(a: seq<R.Label>, b: seq<R.Label>, c: seq<R.Label>)
    ensures a + (b + c) == a + b + c
  {
  }

  // ---------------------------------------------------------------- what a caller can rely on

  /** The status of the response `_interpret` sends; a process-control exception is not turned into a response. */
  function Status(outcome: T.Outcome): Option<nat> {
    match outcome
    case Returned(_) => Some(200)
    case ConflictError => Some(409)
    case CapacityError => Some(503)
    case ControlError => None
    case _ => Some(500)
  }

  /** What a finished call has come to, and the outcome it has. */
  lemma OutcomeOfEnding(t: R.State, c: nat)
    requires R.Inv(t) && RR.Coherent(t.calls) && c < |t.calls| == |t.phases| && t.phases[c].Finished?
    ensures var outcome := t.phases[c].outcome;
            && (outcome.ConflictError? <==> RC.Has(t, c, RC.OtherIntent))
            && (outcome.CapacityError? <==> RC.Has(t, c, RC.NoPlace))
            && (outcome.ReentryError? <==> RC.Has(t, c, RC.OwnReentry))
            && (outcome.ControlError? <==> RC.Has(t, c, RC.Control))
            && (outcome.ContractError? <==> RC.Has(t, c, RC.BadCall))
            && (outcome.Returned? <==> RC.Has(t, c, RC.GivenBytes))
            && !outcome.ReservationLost? && !outcome.Blocked?
  {
    RI.InvSplit(t, c);
    hide R.Inv, RI.InvBut, RR.Coherent, DecodeTerminal, R.PublishedBy, R.Fallback, DecodeOrFallback;
    RR.OutcomeIsAnswer(t, c);
    if c in t.answers && t.answers[c].Given? {
      RR.GivenBytesDecode(t, c);
    }
  }

  /** The status a routed caller is sent, in every run from the start, by what its call found in the table at the step
      that decided it: 409 exactly if its key was there with another digest, 503 exactly if its key was not there and
      the table was full, 200 exactly if it was given bytes, 500 exactly if its own thread held the key or the call was
      bad; and no response exactly after process control. */
  lemma StatusExactly(s: State, init: seq<Cell>, ls: seq<Label>, c: nat)
    requires Init(s, init) && RR.Coherent(s.replay.calls) && Runs(s, ls) && Routed(s, c)
    requires c < |After(s, ls).replay.phases| && After(s, ls).replay.phases[c].Finished?
    ensures R.Runs(s.replay, CoordinatorPart(ls))
    ensures var status := Status(After(s, ls).replay.phases[c].outcome);
            var run := CoordinatorPart(ls);
            && (status == Some(409) <==> RC.Caused(s.replay, run, c, RC.OtherIntent))
            && (status == Some(503) <==> RC.Caused(s.replay, run, c, RC.NoPlace))
            && (status == None <==> RC.Caused(s.replay, run, c, RC.Control))
            && (status == Some(200) <==> RC.Caused(s.replay, run, c, RC.GivenBytes))
            && (status == Some(500) <==>
                  RC.Caused(s.replay, run, c, RC.OwnReentry) || RC.Caused(s.replay, run, c, RC.BadCall))
  {
    InitInv(s, init);
    RunInv(s, init, ls);
    CoordinatorRuns(s, ls);
    hide R.Inv, R.Runs, R.After, Runs, After, RC.Caused, RC.Has, RR.Coherent, CellsInv, R.Init, V.Init, CoordinatorPart;
    var run := CoordinatorPart(ls);
    RC.EndsForACause(s.replay, run, c, RC.OtherIntent);
    RC.EndsForACause(s.replay, run, c, RC.NoPlace);
    RC.EndsForACause(s.replay, run, c, RC.OwnReentry);
    RC.EndsForACause(s.replay, run, c, RC.Control);
    RC.EndsForACause(s.replay, run, c, RC.BadCall);
    RC.EndsForACause(s.replay, run, c, RC.GivenBytes);
    OutcomeOfEnding(After(s, ls).replay, c);
  }

  /** Bytes that decode to something other than the closed failure are the dispatch's own result. */
  lemma GenuineResult(s: State, c: nat, b: Bytes)
    requires Shaped(s) && Routed(s, c) && Genuine(s, c, b) && RoundTrips(s.replay.calls[c].codec)
    requires R.Fallback(s.replay.calls[c]).Some?
    ensures var call := s.replay.calls[c];
            var d := DecodeTerminal(b, call.codec, call.requestId);
            d == Some(Failed(call.requestId, ApplyCommand)) ||
            DispatchOf(call.requestId, CellFor(s, c).phases[c].response) == T.Gave(if d.Some? then d.value else Foreign)
  {
    hide CellFor;
  }

  /** A result sent with status 200 is the closed failure, or what the variable answered to the one dispatch made for
      this key and digest; and the command of that dispatch is the caller's own command. */
  lemma ResponseIsGenuine(s: State, init: seq<Cell>, c: nat) returns (o: nat)
    requires Inv(s, init) && Faithful(s) && Routed(s, c) && s.replay.phases[c].Finished?
    requires Status(s.replay.phases[c].outcome) == Some(200)
    ensures Routed(s, o) && SameRequest(s, o, c) && s.target[o] == s.target[c]
    ensures SameCommand(CellFor(s, o).calls[o], CellFor(s, c).calls[c])
    ensures var r := s.replay.phases[c].outcome.result;
            var p := CellFor(s, o).phases[o];
            || r == Failed(s.replay.calls[c].requestId, ApplyCommand)
            || (p.Done? && DispatchOf(s.replay.calls[c].requestId, p.response) == T.Gave(r))
  {
    hide R.Inv, CellsInv, DecodeTerminal, DispatchOf, BytesFor, R.FallbackOf, DecodeOrFallback, SameCommand;
    RR.OutcomeIsAnswer(s.replay, c);
    assert c in s.replay.answers && s.replay.answers[c].Given?;
    o := s.replay.answers[c].origin;
    var b := s.replay.answers[c].bytes;
    RR.GivenBytesDecode(s.replay, c);
    RR.AnswerFacts(s.replay, c);
    assert R.PublishedBy(s.replay, o, b);
    assert GlueAt(s, o);
    assert SameRequest(s, o, c);
    hide CellFor;
    if s.replay.answers[o].Given? {
      GenuineResult(s, o, b);
    } else {
      FallbackIsFailure(s.replay.calls[o]);
    }
  }

  lemma FallbackIsFailure(call: R.Call)
    requires RoundTrips(call.codec) && R.Fallback(call).Some?
    ensures DecodeTerminal(R.FallbackOf(call), call.codec, call.requestId) == Some(Failed(call.requestId, ApplyCommand))
  {
  }

  /** A caller that is told APPLIED at version `v` can rely on it: the history of its variable has exactly one
      operation that was applied at version `v`, it carries the caller's own expected version and candidate, and it
      was made by the one dispatch for the caller's key and digest. */
  lemma AppliedHappenedOnce(s: State, init: seq<Cell>, c: nat) returns (i: nat)
    requires Inv(s, init) && Faithful(s) && Routed(s, c) && s.replay.phases[c].Finished?
    requires var outcome := s.replay.phases[c].outcome;
             outcome.Returned? && outcome.result.Succeeded? && outcome.result.evidence.Applied?
    ensures var v := s.replay.phases[c].outcome.result.version;
            var log := CellFor(s, c).log;
            && i < |log| && IsApplied(log[i]) && log[i].response.version == v
            && CellFor(s, c).calls[c].valid && CellFor(s, c).calls[c].expected == v - 1
            && log[i].cmd.Apply? && SameCommand(log[i].cmd, CellFor(s, c).calls[c])
            && Routed(s, log[i].id) && SameRequest(s, log[i].id, c)
            && (forall j | 0 <= j < |log| && IsApplied(log[j]) && log[j].response.version == v :: j == i)
  {
    var o := ResponseIsGenuine(s, init, c);
    InvParts(s, init);
    hide Inv, R.Inv, V.Inv, CellsInv, Faithful;
    var v := s.target[c];
    var cell := s.cells[v];
    assert cell.phases[o].response == Success(s.replay.phases[c].outcome.result.version, Applied);
    i := V.LoggedAt(cell, init[v], o);
    V.LogIsLegal(cell, init[v]);
    AppliedMeans(init[v], cell.log, i);
    forall j | 0 <= j < |cell.log| && IsApplied(cell.log[j])
        && cell.log[j].response.version == cell.log[i].response.version
      ensures j == i
    {
      VersionHasOneAuthor(init[v], cell.log, i, j);
    }
  }

  // ---------------------------------------------------------------- no double apply

  /** The dispatch of routed call `c` is over, and its variable answered APPLIED. */
  predicate AppliedDispatch(s: State, c: nat)
    requires Shaped(s)
  {
    && Routed(s, c) && CellFor(s, c).phases[c].Done?
    && CellFor(s, c).phases[c].response.Success? && CellFor(s, c).phases[c].response.evidence.Applied?
  }

  /** The place in the variable's history of a dispatch that was applied. */
  lemma AppliedAt(s: State, init: seq<Cell>, c: nat) returns (i: nat)
    requires Inv(s, init) && AppliedDispatch(s, c)
    ensures |init| == |s.cells| && Legal(init[s.target[c]], CellFor(s, c).log)
    ensures i < |CellFor(s, c).log|
    ensures CellFor(s, c).log[i] == Op(c, CellFor(s, c).calls[c], CellFor(s, c).phases[c].response)
    ensures IsApplied(CellFor(s, c).log[i]) && CellFor(s, c).calls[c].valid
  {
    InvParts(s, init);
    hide Inv, R.Inv, V.Inv, Legal;
    var v := s.target[c];
    i := V.LoggedAt(s.cells[v], init[v], c);
    V.LogIsLegal(s.cells[v], init[v]);
    AppliedMeans(init[v], s.cells[v].log, i);
  }

  /** The rejection of call `d`: it is the variable's answer, and at its place in the history it changed nothing. */
  ghost predicate RejectedWithoutEffect(s: State, init: seq<Cell>, d: nat, j: nat)
    requires Shaped(s) && Routed(s, d) && |init| == |s.cells|
  {
    var log := CellFor(s, d).log;
    var before := init[s.target[d]];
    && CellFor(s, d).phases[d] == V.Done(Rejection(PreconditionFailed))
    && j < |log| && log[j] == Op(d, CellFor(s, d).calls[d], Rejection(PreconditionFailed))
    && CellAfter(before, log[..j + 1]) == CellAfter(before, log[..j])
  }

  /** The dispatch of routed call `d` has not reached its variable. */
  predicate NotReached(s: State, d: nat) {
    Shaped(s) && Routed(s, d) && CellFor(s, d).phases[d].Idle?
  }

  /** The variable has answered the dispatch of routed call `d`. */
  predicate Answered(s: State, d: nat) {
    Shaped(s) && Routed(s, d) && CellFor(s, d).phases[d].Done?
  }

  predicate InDispatch(s: State, d: nat) {
    d < |s.replay.phases| && s.replay.phases[d].Dispatching?
  }

  /** Of two dispatches to one variable that expect the same version at most one is applied.  `i` and `j` are their
      places in the variable's history; the one that takes effect after the applied one is rejected and changes
      nothing. */
  lemma NoDoubleApply(s: State, init: seq<Cell>, c: nat, d: nat) returns (i: nat, j: nat)
    requires Inv(s, init) && AppliedDispatch(s, c) && Answered(s, d) && c != d
    requires s.target[c] == s.target[d] && CellFor(s, d).calls[d].valid
    requires CellFor(s, c).calls[c].expected == CellFor(s, d).calls[d].expected
    ensures !AppliedDispatch(s, d)
    ensures var log := CellFor(s, d).log;
            && |init| == |s.cells| && i < |log| && j < |log|
            && log[i] == Op(c, CellFor(s, c).calls[c], CellFor(s, c).phases[c].response)
            && log[j] == Op(d, CellFor(s, d).calls[d], CellFor(s, d).phases[d].response)
            && (i < j ==> RejectedWithoutEffect(s, init, d, j))
  {
    var v := s.target[c];
    i := AppliedAt(s, init, c);
    InvParts(s, init);
    hide Inv, Legal, Shaped, V.Inv;
    j := V.LoggedAt(s.cells[v], init[v], d);
    if i < j {
      NoSecondApply(init[v], s.cells[v].log, i, j);
    } else if AppliedDispatch(s, d) {
      NoSecondApply(init[v], s.cells[v].log, j, i);
    }
  }

  /** In every run of the routes over the variables, however requests are retried, interleaved and forgotten, at most
      one dispatch to a variable for each expected version is applied. */
  lemma AppliedAtMostOnce(s: State, init: seq<Cell>, ls: seq<Label>)
    requires Init(s, init) && Runs(s, ls)
    ensures var t := After(s, ls);
            && Shaped(t)
            && forall c: nat, d: nat | AppliedDispatch(t, c) && AppliedDispatch(t, d) &&
                                       t.target[c] == t.target[d] &&
                                       CellFor(t, c).calls[c].expected == CellFor(t, d).calls[d].expected :: c == d
  {
    InitInv(s, init);
    RunInv(s, init, ls);
    var t := After(s, ls);
    hide Init, Runs, After;
    InvParts(t, init);
    hide Inv;
    forall c: nat, d: nat | AppliedDispatch(t, c) && AppliedDispatch(t, d) && t.target[c] == t.target[d] &&
                            CellFor(t, c).calls[c].expected == CellFor(t, d).calls[d].expected
      ensures c == d
    {
      if c != d {
        var j := AppliedAt(t, init, d);
        var i, k := NoDoubleApply(t, init, c, d);
      }
    }
  }

  /** After a command was applied, a dispatch that has not reached the variable yet and expects the same version is told
      that its precondition failed, in every run in which it ends, and leaves the state alone. */
  lemma LaterApplyFails(s: State, init: seq<Cell>, c: nat, d: nat, ls: seq<Label>, t: State) returns (j: nat)
    requires Inv(s, init) && Runs(s, ls) && t == After(s, ls)
    requires AppliedDispatch(s, c) && NotReached(s, d) && Answered(t, d) && s.target[c] == s.target[d]
    requires CellFor(s, d).calls[d].valid && CellFor(s, d).calls[d].expected == CellFor(s, c).calls[c].expected
    ensures |init| == |t.cells| && RejectedWithoutEffect(t, init, d, j)
  {
    var v := s.target[c];
    var i := AppliedAt(s, init, c);
    InvParts(s, init);
    RunInv(s, init, ls);
    InvParts(t, init);
    VariableRuns(s, ls, v);
    hide Inv, Runs, After, V.Inv, V.Runs, V.After, Legal;
    V.RunInv(s.cells[v], init[v], VariablePart(ls, v));
    j := V.LoggedAt(t.cells[v], init[v], d);
    var log := t.cells[v].log;
    assert log[i] == s.cells[v].log[i];
    V.RealTimeOrder(s.cells[v], init[v], c, d, VariablePart(ls, v), i, j);
    V.LogIsLegal(t.cells[v], init[v]);
    NoSecondApply(init[v], log, i, j);
  }

  lemma ConsRunsHere(s: State, l: Label, ls: seq<Label>)
    requires Enabled(s, l) && Runs(Next(s, l), ls)
    ensures Runs(s, [l] + ls) && After(s, [l] + ls) == After(Next(s, l), ls)
  {
    hide Enabled, Next;
    assert ([l] + ls)[1..] == ls;
  }

  lemma UnfoldRun(s: State, ls: seq<Label>)
    requires Runs(s, ls) && ls != []
    ensures Enabled(s, ls[0]) && Runs(Next(s, ls[0]), ls[1..]) && After(s, ls) == After(Next(s, ls[0]), ls[1..])
  {
    hide Enabled, Next;
  }

  lemma EmptyRun(s: State)
    ensures Runs(s, []) && After(s, []) == s
  {
  }

  /** A dispatch reaches its variable only while the call is dispatching: `a` is the part of the run before that. */
  lemma {:induction false} DispatchesOnTheWay(s: State, init: seq<Cell>, d: nat, ls: seq<Label>, t: State)
    returns (a: seq<Label>, b: seq<Label>)
    requires Inv(s, init) && NotReached(s, d) && Runs(s, ls) && t == After(s, ls) && Answered(t, d)
    ensures ls == a + b && Runs(s, a) && Runs(After(s, a), b) && InDispatch(After(s, a), d)
    decreases |ls|
  {
    ReachedOnce(s, d);
    hide *;
    EmptyRun(s);
    if InDispatch(s, d) {
      a, b := [], ls;
      assert [] + ls == ls;
    } else {
      assert ls != [];
      UnfoldRun(s, ls);
      StillNotReached(s, ls[0], d);
      StepInv(s, init, ls[0]);
      var rest;
      rest, b := DispatchesOnTheWay(Next(s, ls[0]), init, d, ls[1..], t);
      ConsRunsHere(s, ls[0], rest);
      a := [ls[0]] + rest;
      ConsSplit(ls, rest, b);
    }
  }

  lemma ReachedOnce(s: State, d: nat)
    ensures NotReached(s, d) ==> !Answered(s, d)
  {
  }

  lemma ConsSplit(ls: seq<Label>, a: seq<Label>, b: seq<Label>)
    requires ls != [] && ls[1..] == a + b
    ensures ls == [ls[0]] + a + b
  {
    assert ls == [ls[0]] + ls[1..];
  }

  lemma StillNotReached(s: State, l: Label, d: nat)
    requires Enabled(s, l) && NotReached(s, d) && !InDispatch(s, d)
    ensures NotReached(Next(s, l), d)
  {
    if l.Variable? {
      V.StepPhase(s.cells[l.v], l.l);
    }
    hide R.Next, R.Enabled, R.OnTop, V.Next, V.Enabled;
  }

  lemma {:induction false} RemovedAppend(s: R.State, a: seq<R.Label>, b: seq<R.Label>, k: T.Key)
    requires R.Runs(s, a) && R.Runs(R.After(s, a), b) && R.Runs(s, a + b)
    ensures RH.Removed(s, a + b, k) == RH.Removed(s, a, k) + RH.Removed(R.After(s, a), b, k)
    decreases |a|
  {
    hide R.Next, R.Enabled, RH.Removes;
    if a == [] {
      assert a + b == b;
    } else {
      assert (a + b)[1..] == a[1..] + b;
      RemovedAppend(R.Next(s, a[0]), a[1..], b, k);
    }
  }

  /** A key that has gone to another call was removed in between. */
  lemma TakenOverMeansRemoved(s: R.State, ls: seq<R.Label>, c: nat, d: nat)
    requires R.Inv(s) && R.Runs(s, ls) && c != d && d < |s.calls| && RF.MadeBy(s, s.calls[d].key, c)
    requires d < |R.After(s, ls).phases| && R.After(s, ls).phases[d].Dispatching?
    ensures RH.Removed(s, ls, s.calls[d].key) > 0
  {
    var t := R.After(s, ls);
    assert R.Owning(t.phases[d]);
    RI.RunInv(s, ls);
    hide R.Inv, R.Runs, R.After, RH.Removed, R.Owning;
    RI.InvSized(t, d);
    RR.OwnsOrigin(t, d);
    RF.SameIncarnation(s, ls, s.calls[d].key);
  }

  /** The same for a command sent again: equal key and digest, under whatever entries the table has by then. */
  lemma SentAgainFails(s: State, init: seq<Cell>, c: nat, d: nat, ls: seq<Label>, t: State) returns (j: nat)
    requires Inv(s, init) && Faithful(s) && Runs(s, ls) && t == After(s, ls)
    requires AppliedDispatch(s, c) && NotReached(s, d) && Answered(t, d) && SameRequest(s, c, d)
    ensures |init| == |t.cells| && RejectedWithoutEffect(t, init, d, j)
  {
    assert s.target[c] == s.target[d] && SameCommand(CellFor(s, c).calls[c], CellFor(s, d).calls[d]);
    var i := AppliedAt(s, init, c);
    hide Faithful, SameRequest;
    j := LaterApplyFails(s, init, c, d, ls, t);
  }

  /** A command dispatched again.  Call `c` made the entry of its key and its dispatch was applied; call `d` has the
      same key and digest.  Every run in which `d` is dispatched to its end removes the entry before, and then the
      variable tells `d` that its precondition failed and keeps its state. */
  lemma RedispatchIsRejected(s: State, init: seq<Cell>, c: nat, d: nat, ls: seq<Label>, t: State) returns (j: nat)
    requires Inv(s, init) && Faithful(s) && Runs(s, ls) && t == After(s, ls)
    requires AppliedDispatch(s, c) && NotReached(s, d) && Answered(t, d) && SameRequest(s, c, d)
    requires RF.MadeBy(s.replay, s.replay.calls[d].key, c)
    ensures R.Runs(s.replay, CoordinatorPart(ls))
    ensures RH.Removed(s.replay, CoordinatorPart(ls), s.replay.calls[d].key) > 0
    ensures |init| == |t.cells| && RejectedWithoutEffect(t, init, d, j)
  {
    assert c != d;
    j := SentAgainFails(s, init, c, d, ls, t);
    hide Faithful, SameRequest, RejectedWithoutEffect;
    EvictedOnTheWay(s, init, c, d, ls);
  }

  lemma EvictedOnTheWay(s: State, init: seq<Cell>, c: nat, d: nat, ls: seq<Label>)
    requires Inv(s, init) && Runs(s, ls) && c != d && NotReached(s, d) && Answered(After(s, ls), d)
    requires RF.MadeBy(s.replay, s.replay.calls[d].key, c)
    ensures R.Runs(s.replay, CoordinatorPart(ls))
    ensures RH.Removed(s.replay, CoordinatorPart(ls), s.replay.calls[d].key) > 0
  {
    InvParts(s, init);
    hide Inv, R.Inv, R.Runs, R.After, RH.Removed, CellFor;
    var a, b := DispatchesOnTheWay(s, init, d, ls, After(s, ls));
    CoordinatorRuns(s, ls);
    CoordinatorRuns(s, a);
    CoordinatorRuns(After(s, a), b);
    hide Runs, After, Shaped;
    CoordinatorPartAppend(a, b);
    TakenOverMeansRemoved(s.replay, CoordinatorPart(a), c, d);
    RemovedAppend(s.replay, CoordinatorPart(a), CoordinatorPart(b), s.replay.calls[d].key);
  }
}
