/** Progress of the routes over the variables: runs end, none gets stuck before every request is answered, and an
    undisturbed request is told that it was applied.  The short module names are those of `RoutedCommands`. */
module RoutedProgress {
  import opened Wrappers
  import opened ReplayCodec
  import RS = ReplaySchedules
  import opened VariableCell
  import opened RoutedCommands

  // ---------------------------------------------------------------- every run is bounded

  function CellsTotal(cells: seq<V.State>): nat {
    if cells == [] then 0 else V.Total(cells[0].phases) + CellsTotal(cells[1..])
  }

  function CallCount(cells: seq<V.State>): nat {
    if cells == [] then 0 else |cells[0].calls| + CallCount(cells[1..])
  }

  /** Steps all calls together still have ahead of them, at most. */
  function Measure(s: State): nat {
    RP.Total(s.replay.phases, |s.replay.calls|) + CellsTotal(s.cells)
  }

  lemma {:induction false} CellsTotalUpdate(cells: seq<V.State>, v: nat, cell: V.State)
    requires v < |cells|
    ensures CellsTotal(cells[v := cell]) + V.Total(cells[v].phases) == CellsTotal(cells) + V.Total(cell.phases)
    decreases |cells|
  {
    hide V.Total;
    if v == 0 {
      assert cells[v := cell][1..] == cells[1..];
    } else {
      CellsTotalUpdate(cells[1..], v - 1, cell);
      assert cells[v := cell][1..] == cells[1..][v - 1 := cell];
    }
  }

  lemma StepDecreases(s: State, l: Label)
    requires Enabled(s, l)
    ensures Measure(Next(s, l)) < Measure(s)
  {
    StepParts(s, l);
    hide Enabled, Next, R.Next, R.Enabled, V.Next, V.Enabled, RP.Total, V.Total;
    match l {
      case Coordinator(r) => RP.StepDecreases(s.replay, r);
      case Variable(v, l) =>
        V.StepDecreases(s.cells[v], l);
        CellsTotalUpdate(s.cells, v, V.Next(s.cells[v], l));
    }
  }

  lemma {:induction false} RunDecreases(s: State, ls: seq<Label>)
    requires Runs(s, ls)
    ensures |ls| + Measure(After(s, ls)) <= Measure(s)
    decreases |ls|
  {
    hide Next, Enabled, Measure;
    if ls != [] {
      StepDecreases(s, ls[0]);
      RunDecreases(Next(s, ls[0]), ls[1..]);
    }
  }

  lemma {:induction false} IdleTotal(ps: seq<V.Phase>)
    requires forall c | 0 <= c < |ps| :: ps[c].Idle?
    ensures V.Total(ps) == 5 * |ps|
    decreases |ps|
  {
    if ps != [] {
      IdleTotal(ps[1..]);
    }
  }

  lemma {:induction false} IdleCellsTotal(cells: seq<V.State>)
    requires forall v | 0 <= v < |cells| ::
               |cells[v].phases| == |cells[v].calls| && forall c | 0 <= c < |cells[v].phases| ::
                   cells[v].phases[c].Idle?
    ensures CellsTotal(cells) == 5 * CallCount(cells)
    decreases |cells|
  {
    if cells != [] {
      IdleTotal(cells[0].phases);
      hide V.Total;
      IdleCellsTotal(cells[1..]);
    }
  }

  /** With `n` routed calls and `m` calls on the variables, a run has at most `n * (n + 11) + 5 * m` steps. */
  lemma RunsAreBounded(s: State, init: seq<Cell>, ls: seq<Label>)
    requires Init(s, init) && Runs(s, ls)
    ensures var n := |s.replay.calls|; |ls| <= n * (n + 11) + 5 * CallCount(s.cells)
  {
    hide Runs, After, RP.Total;
    RunDecreases(s, ls);
    RP.TotalIdle(s.replay.phases, |s.replay.calls|);
    IdleCellsTotal(s.cells);
  }

  // ---------------------------------------------------------------- no run gets stuck

  ghost predicate Stuck(s: State) {
    forall l :: !Enabled(s, l)
  }

  lemma EndsEitherWay(s: R.State, r: R.Label, outcome: T.DispatchOutcome)
    requires R.Enabled(s, r) && r.EndDispatch?
    ensures R.Enabled(s, R.EndDispatch(r.c, outcome))
    ensures r.c < |s.calls| == |s.phases| && s.phases[r.c].Dispatching? && R.OnTop(s, r.c)
  {
    hide R.OnTop, R.MayBegin;
  }

  /** While the coordinator can take a step, so can the composition: a dispatch that cannot end can go on. */
  lemma CoordinatorStepMoves(s: State, r: R.Label) returns (l: Label)
    requires Shaped(s) && R.Enabled(s.replay, r)
    ensures Enabled(s, l)
  {
    hide R.Enabled, R.OnTop, V.Enabled;
    if r.EndDispatch? {
      EndsEitherWay(s.replay, r, r.outcome);
      var cell := CellFor(s, r.c);
      if cell.phases[r.c].Done? {
        var outcome := DispatchOf(s.replay.calls[r.c].requestId, cell.phases[r.c].response);
        EndsEitherWay(s.replay, r, outcome);
        l := Coordinator(R.EndDispatch(r.c, outcome));
      } else {
        var m := V.CallMoves(cell, r.c);
        l := Variable(s.target[r.c], m);
      }
    } else {
      l := Coordinator(r);
    }
  }

  /** If nested calls take keys in increasing order, a run that can go no further has answered every request: no
      routed call is running and every top-level one has finished. */
  lemma StuckMeansAnswered(s: State, init: seq<Cell>, rank: T.Key -> nat)
    requires Inv(s, init) && RP.Ordered(s.replay.calls, rank) && Stuck(s)
    ensures |s.replay.phases| == |s.replay.calls| && RP.Quiet(s.replay)
  {
    InvParts(s, init);
    hide Inv, R.Inv, R.Enabled, Enabled, RP.Ordered, RP.Quiet;
    forall r
      ensures !R.Enabled(s.replay, r)
    {
      if R.Enabled(s.replay, r) {
        var l := CoordinatorStepMoves(s, r);
        assert false;
      }
    }
    assert RP.Stuck(s.replay);
    RP.StuckMeansQuiet(s.replay, rank);
  }

  /** Under that order every reachable state leads to such a state; by `RunsAreBounded` every way of going on does. */
  lemma {:induction false} RunsComplete(s: State, init: seq<Cell>, rank: T.Key -> nat)
    returns (ls: seq<Label>, t: State)
    requires Inv(s, init) && RP.Ordered(s.replay.calls, rank)
    ensures Runs(s, ls) && t == After(s, ls)
    ensures |t.replay.phases| == |t.replay.calls| && RP.Quiet(t.replay)
    decreases Measure(s)
  {
    EmptyRun(s);
    if Stuck(s) {
      hide Inv, Stuck, Enabled, RP.Ordered, RP.Quiet, Runs, After;
      StuckMeansAnswered(s, init, rank);
      return [], s;
    }
    var l :| Enabled(s, l);
    hide Inv, Enabled, Next, Stuck, RP.Ordered, RP.Quiet, Runs, After, Measure;
    StepInv(s, init, l);
    StepDecreases(s, l);
    var rest;
    rest, t := RunsComplete(Next(s, l), init, rank);
    ConsRunsHere(s, l, rest);
    ls := [l] + rest;
  }

  // ---------------------------------------------------------------- an undisturbed request is applied

  function Coordinated(ls: seq<R.Label>): seq<Label> {
    if ls == [] then [] else [Coordinator(ls[0])] + Coordinated(ls[1..])
  }

  function OnVariable(v: nat, ls: seq<V.Label>): seq<Label> {
    if ls == [] then [] else [Variable(v, ls[0])] + OnVariable(v, ls[1..])
  }

  /** A run of the coordinator in which no dispatch ends is a run of the composition. */
  lemma {:induction false} LiftCoordinator(s: State, ls: seq<R.Label>)
    requires Shaped(s) && R.Runs(s.replay, ls) && forall i | 0 <= i < |ls| :: !ls[i].EndDispatch?
    ensures Runs(s, Coordinated(ls)) && After(s, Coordinated(ls)) == s.(replay := R.After(s.replay, ls))
    decreases |ls|
  {
    EmptyRun(s);
    if ls != [] {
      var l := Coordinator(ls[0]);
      assert Enabled(s, l) && Next(s, l) == s.(replay := R.Next(s.replay, ls[0]));
      hide R.Next, R.Enabled, Next, Enabled, Shaped;
      LiftCoordinator(Next(s, l), ls[1..]);
      ConsRunsHere(s, l, Coordinated(ls[1..]));
    }
  }

  /** A run of a variable by a call that is dispatching is a run of the composition. */
  lemma {:induction false} LiftVariable(s: State, v: nat, ls: seq<V.Label>, c: nat)
    requires Shaped(s) && v < |s.cells| && V.Runs(s.cells[v], ls) && V.OnlyOf(ls, c)
    requires InDispatch(s, c) && c < |s.replay.calls| && R.OnTop(s.replay, c)
    ensures Runs(s, OnVariable(v, ls))
            && After(s, OnVariable(v, ls)) == s.(cells := s.cells[v := V.After(s.cells[v], ls)])
    decreases |ls|
  {
    EmptyRun(s);
    if ls == [] {
      assert s.cells[v := s.cells[v]] == s.cells;
    } else {
      hide R.OnTop, V.Next, V.Enabled, V.Runs, V.After;
      V.UnfoldRun(s.cells[v], ls);
      var l := Variable(v, ls[0]);
      assert ls[0].c == c;
      assert Enabled(s, l) && Next(s, l) == s.(cells := s.cells[v := V.Next(s.cells[v], ls[0])]);
      hide Next, Enabled, Shaped;
      LiftVariable(Next(s, l), v, ls[1..], c);
      ConsRunsHere(s, l, OnVariable(v, ls[1..]));
      var done := V.After(s.cells[v], ls);
      assert s.cells[v := V.Next(s.cells[v], ls[0])][v := done] == s.cells[v := done];
    }
  }

  /** Call `c` can begin, and reading its clock at `now` it finds its key free and room in the table. */
  ghost predicate WillReserve(s: State, c: nat, now: T.Nanos) {
    && Shaped(s) && Routed(s, c) && R.MayBegin(s.replay, c) && R.Fallback(s.replay.calls[c]).Some?
    && var call := s.replay.calls[c];
       T.Decide(T.Pruned(s.replay.entries, now), s.replay.capacity, call.key, call.digest, call.thread).Reserve?
  }

  /** Besides, its request expects the current version of its variable. */
  ghost predicate WillBeApplied(s: State, c: nat, now: T.Nanos) {
    && WillReserve(s, c, now) && V.WillApply(CellFor(s, c), c)
    && var call := s.replay.calls[c];
       RoundTrips(call.codec) && Encodable(call.codec, AppliedResult(s, c))
  }

  function AppliedResult(s: State, c: nat): Result
    requires Shaped(s) && Routed(s, c) && CellFor(s, c).calls[c].expected >= 0
  {
    Succeeded(s.replay.calls[c].requestId, CellFor(s, c).calls[c].expected + 1, Applied)
  }

  predicate LabelOf(l: Label, c: nat) { (if l.Coordinator? then l.r.c else l.l.c) == c }

  /** Every label is one of call `c`. */
  ghost predicate OwnLabels(ls: seq<Label>, c: nat) {
    forall i | 0 <= i < |ls| :: LabelOf(ls[i], c)
  }

  lemma OwnAppend(a: seq<Label>, b: seq<Label>, c: nat)
    requires OwnLabels(a, c) && OwnLabels(b, c)
    ensures OwnLabels(a + b, c)
  {
  }

  lemma {:induction false} OwnCoordinated(ls: seq<R.Label>, c: nat)
    requires forall i | 0 <= i < |ls| :: ls[i].c == c
    ensures OwnLabels(Coordinated(ls), c)
    decreases |ls|
  {
    if ls != [] {
      OwnCoordinated(ls[1..], c);
    }
  }

  lemma {:induction false} OwnOnVariable(v: nat, ls: seq<V.Label>, c: nat)
    requires V.OnlyOf(ls, c)
    ensures OwnLabels(OnVariable(v, ls), c)
    decreases |ls|
  {
    if ls != [] {
      OwnOnVariable(v, ls[1..], c);
    }
  }

  /** Right after call `c` has reserved its key. */
  predicate Reserving(t: R.State, c: nat, now: T.Nanos) {
    && c < |t.calls| == |t.phases| && t.phases[c] == R.Dispatching(now) && R.OnTop(t, c)
    && T.HoldsReservation(t.entries, t.calls[c].key, t.calls[c].digest, t.calls[c].thread)
    && t.calls[c].key in t.origin && t.origin[t.calls[c].key] == c
  }

  lemma Reserves(s: State, c: nat, now: T.Nanos) returns (ls: seq<Label>, t: State)
    requires WillReserve(s, c, now)
    ensures Runs(s, ls) && t == After(s, ls) && Shaped(t) && OwnLabels(ls, c)
    ensures t.cells == s.cells && t.target == s.target && t.replay.calls == s.replay.calls
    ensures Reserving(t.replay, c, now)
  {
    hide R.MayBegin, T.Decide, T.Pruned, R.Fallback, R.Runs, R.After, RoundTrips, NormalizeTerminal, CellFor;
    var first := RS.CallAndLook(c, now);
    assert forall i | 0 <= i < |first| :: !first[i].EndDispatch? && first[i].c == c;
    RS.CallReserves(s.replay, c, now);
    hide RS.CallAndLook;
    LiftCoordinator(s, first);
    OwnCoordinated(first, c);
    ls := Coordinated(first);
    t := After(s, ls);
    hide Runs, After;
  }

  /** The result that tells the caller of request `id` what the variable answered to its command. */
  predicate Tells(result: Result, id: string, response: Response) {
    match response
    case Success(version, evidence) => result == Succeeded(id, version, evidence)
    case Rejection(reason) => result == Rejected(id, ApplyCommand, reason)
    case Failure => result == Failed(id, ApplyCommand)
    case Interrupted => false
    case Value(_, _) => false
  }

  /** The variable has answered the dispatch of call `c` with `response`; the codec can store what that tells. */
  ghost predicate CanTell(s: State, c: nat, response: Response, result: Result) {
    && Shaped(s) && Routed(s, c) && CellFor(s, c).phases[c] == V.Done(response)
    && Tells(result, s.replay.calls[c].requestId, response)
    && RoundTrips(s.replay.calls[c].codec) && Encodable(s.replay.calls[c].codec, result)
  }

  function EncodingFor(s: State, c: nat, result: Result): Bytes
    requires Routed(s, c) && s.replay.calls[c].codec.encode(result).Some?
  {
    s.replay.calls[c].codec.encode(result).value
  }

  lemma ToldBytes(s: State, c: nat, response: Response, result: Result)
    requires CanTell(s, c, response, result)
    ensures var call := s.replay.calls[c];
            && DispatchOf(call.requestId, response) == T.Gave(result)
            && NormalizeTerminal(result, call.codec, call.requestId) == Some(EncodingFor(s, c, result))
            && DecodeTerminal(EncodingFor(s, c, result), call.codec, call.requestId) == Some(result)
  {
    StoredExactly(result, s.replay.calls[c].codec, s.replay.calls[c].requestId);
    hide NormalizeTerminal, DecodeTerminal, CellFor;
  }

  lemma EndsDispatch(s: State, c: nat, now: T.Nanos, response: Response, result: Result)
    requires CanTell(s, c, response, result) && s.replay.phases[c] == R.Dispatching(now) && R.OnTop(s.replay, c)
    ensures var l := Coordinator(R.EndDispatch(c, T.Gave(result)));
            && Enabled(s, l)
            && Next(s, l) == s.(replay := R.Moved(s.replay, c, R.Completing(now, EncodingFor(s, c, result))))
  {
    ToldBytes(s, c, response, result);
    hide R.OnTop, NormalizeTerminal, CellFor, R.FallbackOf, Tells, DispatchOf;
  }

  lemma DispatchIsApplied(s: State, c: nat, now: T.Nanos) returns (ls: seq<Label>, t: State)
    requires Shaped(s) && Reserving(s.replay, c, now) && V.WillApply(CellFor(s, c), c)
    ensures Runs(s, ls) && t == After(s, ls) && Shaped(t) && OwnLabels(ls, c)
    ensures t.replay == s.replay && t.target == s.target
    ensures CellFor(t, c).calls == CellFor(s, c).calls
    ensures CellFor(t, c).phases[c] == V.Done(Success(CellFor(s, c).calls[c].expected + 1, Applied))
  {
    var v := s.target[c];
    hide V.WillApply, V.Runs, V.After, R.OnTop;
    var a, cell := V.UndisturbedApplies(s.cells[v], c);
    LiftVariable(s, v, a, c);
    OwnOnVariable(v, a, c);
    ls := OnVariable(v, a);
    t := After(s, ls);
    hide Runs, After;
  }

  /** Call `c` has returned `result` to its caller and stored `bytes` for its key. */
  predicate Stored(t: R.State, c: nat, now: T.Nanos, bytes: Bytes, result: Result) {
    && c < |t.calls| == |t.phases| && t.phases[c] == R.Finished(T.Returned(result))
    && t.calls[c].key in t.origin && t.origin[t.calls[c].key] == c
    && t.calls[c].key in t.entries
    && t.entries[t.calls[c].key] == T.TerminalOf(t.calls[c].digest, T.Settlement(bytes, Some(now), false))
  }

  lemma Reports(s: State, c: nat, now: T.Nanos, bytes: Bytes, result: Result) returns (ls: seq<Label>, t: State)
    requires Shaped(s) && Routed(s, c) && s.replay.phases[c] == R.Completing(now, bytes) && R.OnTop(s.replay, c)
    requires var call := s.replay.calls[c];
             && T.HoldsReservation(s.replay.entries, call.key, call.digest, call.thread)
             && call.key in s.replay.origin && s.replay.origin[call.key] == c
             && DecodeTerminal(bytes, call.codec, call.requestId) == Some(result)
    ensures Runs(s, ls) && t == After(s, ls) && Shaped(t) && OwnLabels(ls, c)
    ensures t.cells == s.cells && t.target == s.target && t.replay.calls == s.replay.calls
    ensures Stored(t.replay, c, now, bytes, result)
  {
    hide R.OnTop, T.HoldsReservation, T.TerminalOf, DecodeTerminal, R.Runs, R.After;
    var last := RS.FinishLabels(c, now);
    assert forall i | 0 <= i < |last| :: !last[i].EndDispatch? && last[i].c == c;
    RS.OwnerFinishes(s.replay, c, now, bytes, result);
    hide RS.FinishLabels;
    LiftCoordinator(s, last);
    OwnCoordinated(last, c);
    ls := Coordinated(last);
    t := After(s, ls);
    KeepsShape(s, ls);
    hide Runs, After;
  }

  lemma {:induction false} KeepsShape(s: State, ls: seq<Label>)
    requires Shaped(s) && Runs(s, ls)
    ensures Shaped(After(s, ls)) && After(s, ls).replay.calls == s.replay.calls && After(s, ls).target == s.target
    decreases |ls|
  {
    hide Next, Enabled, Shaped;
    if ls != [] {
      KeepsShape(Next(s, ls[0]), ls[1..]);
    }
  }

  /** Whatever the variable answers, applied, without change, rejected for either reason or failed, a call that holds
      its reservation can run, no other call moving, to where its caller is told just that and it is stored. */
  lemma AnswerIsReported(s: State, c: nat, now: T.Nanos, response: Response, result: Result)
    returns (ls: seq<Label>, t: State)
    requires CanTell(s, c, response, result) && Reserving(s.replay, c, now)
    ensures Runs(s, ls) && t == After(s, ls) && Shaped(t) && OwnLabels(ls, c)
    ensures t.cells == s.cells && t.target == s.target && t.replay.calls == s.replay.calls
    ensures Stored(t.replay, c, now, EncodingFor(s, c, result), result)
  {
    var bytes := EncodingFor(s, c, result);
    var l := Coordinator(R.EndDispatch(c, T.Gave(result)));
    var u := s.(replay := R.Moved(s.replay, c, R.Completing(now, bytes)));
    assert Shaped(u);
    hide Runs, After, Enabled, Next, R.OnTop, T.HoldsReservation, NormalizeTerminal, DecodeTerminal, CellFor,
        DispatchOf, Stored, Tells, RoundTrips;
    ToldBytes(s, c, response, result);
    EndsDispatch(s, c, now, response, result);
    RI.OnTopFrame(s.replay, u.replay, c);
    hide Shaped, CanTell;
    var rest;
    rest, t := Reports(u, c, now, bytes, result);
    ConsRunsHere(s, l, rest);
    ls := [l] + rest;
  }

  /** Call `c` has not left the way from its dispatch, begun at `now` and answered by the variable, to returning
      `result`. */
  ghost predicate OnCourse(s: State, c: nat, now: T.Nanos, response: Response, result: Result) {
    && CanTell(s, c, response, result) && c < |s.replay.phases|
    && PhaseOnCourse(s.replay.phases[c], now, EncodingFor(s, c, result), result)
  }

  predicate PhaseOnCourse(p: R.Phase, now: T.Nanos, bytes: Bytes, result: Result) {
    match p
    case Dispatching(initial) => initial == now
    case Completing(initial, b) => initial == now && b == bytes
    case Publishing(st) => st.bytes == bytes && st.floor.Some? && !st.control
    case Decoding(b) => b == bytes
    case Finished(outcome) => outcome == T.Returned(result)
    case _ => false
  }

  /** If the step is call `c` reading its completion clock, the sample is an integer from `now` to the maximum. */
  predicate CompletesWell(l: Label, c: nat, now: T.Nanos) {
    l.Coordinator? && l.r.Complete? && l.r.c == c ==>
      l.r.sample.Reading? && now <= l.r.sample.n <= T.MAX_CLOCK_NS
  }

  /** A step of the coordinator that is not one of call `c`, or a step of a variable, leaves it on course. */
  lemma StaysOnCourse(s: State, l: Label, c: nat, now: T.Nanos, response: Response, result: Result)
    requires OnCourse(s, c, now, response, result) && Enabled(s, l) && (l.Coordinator? ==> l.r.c != c)
    ensures OnCourse(Next(s, l), c, now, response, result)
  {
    hide R.Next, R.Enabled, V.Next, V.Enabled, R.OnTop, RoundTrips, Tells, Encodable;
    match l {
      case Coordinator(r) => RP.OtherPhases(s.replay, r);
      case Variable(v, m) => V.StepPhase(s.cells[v], m);
    }
  }

  lemma DispatchOnCourse(s: State, r: R.Label, c: nat, now: T.Nanos, response: Response, result: Result)
    requires OnCourse(s, c, now, response, result) && Enabled(s, Coordinator(r)) && r.EndDispatch? && r.c == c
    ensures s.replay.calls[c].codec.encode(result).Some?
    ensures R.Enabled(s.replay, r)
    ensures PhaseOnCourse(R.Next(s.replay, r).phases[c], now, EncodingFor(s, c, result), result)
  {
    ToldBytes(s, c, response, result);
    StepParts(s, Coordinator(r));
    assert r.outcome == T.Gave(result) && r == R.EndDispatch(c, T.Gave(result));
    hide R.Next, R.Enabled, RoundTrips, Tells, Encodable, NormalizeTerminal, DispatchOf, DecodeTerminal, CellFor;
    RH.DispatchEndsIn(s.replay, c, r.outcome);
  }

  lemma CompletionOnCourse(s: State, r: R.Label, c: nat, now: T.Nanos, response: Response, result: Result)
    requires OnCourse(s, c, now, response, result) && R.Enabled(s.replay, r) && r.Complete? && r.c == c
    requires CompletesWell(Coordinator(r), c, now)
    ensures s.replay.calls[c].codec.encode(result).Some?
    ensures PhaseOnCourse(R.Next(s.replay, r).phases[c], now, EncodingFor(s, c, result), result)
  {
    assert s.replay.phases[c].Completing?;
    hide R.Next, R.OnTop, R.MayBegin, CanTell;
    RH.CompletionEndsIn(s.replay, c, r.sample);
  }

  lemma PublicationOnCourse(s: State, init: seq<Cell>, c: nat, now: T.Nanos, response: Response, result: Result)
    requires OnCourse(s, c, now, response, result) && Inv(s, init) && R.Enabled(s.replay, R.Publish(c))
    ensures s.replay.calls[c].codec.encode(result).Some?
    ensures PhaseOnCourse(R.Next(s.replay, R.Publish(c)).phases[c], now, EncodingFor(s, c, result), result)
  {
    assert s.replay.phases[c].Publishing? && R.OnTop(s.replay, c);
    InvParts(s, init);
    hide R.Next, R.OnTop, R.MayBegin, CanTell, Inv, R.Inv, T.HoldsReservation;
    RI.PublishingFacts(s.replay, c);
    RS.PublishesOwn(s.replay, c, s.replay.phases[c].st);
  }

  lemma DecodingOnCourse(s: State, c: nat, now: T.Nanos, response: Response, result: Result)
    requires OnCourse(s, c, now, response, result) && R.Enabled(s.replay, R.Decode(c))
    ensures s.replay.calls[c].codec.encode(result).Some?
    ensures PhaseOnCourse(R.Next(s.replay, R.Decode(c)).phases[c], now, EncodingFor(s, c, result), result)
  {
    assert s.replay.phases[c].Decoding? && R.OnTop(s.replay, c);
    ToldBytes(s, c, response, result);
    hide R.Next, R.OnTop, R.MayBegin, CanTell, DecodeTerminal, NormalizeTerminal, DispatchOf;
    RS.DecodesAt(s.replay, c, EncodingFor(s, c, result), result);
  }

  lemma OwnPhaseOnCourse(
      s: State, init: seq<Cell>, r: R.Label, c: nat, now: T.Nanos, response: Response, result: Result)
    requires OnCourse(s, c, now, response, result) && Inv(s, init) && Enabled(s, Coordinator(r)) && r.c == c
    requires CompletesWell(Coordinator(r), c, now)
    ensures s.replay.calls[c].codec.encode(result).Some? && R.Enabled(s.replay, r)
    ensures PhaseOnCourse(R.Next(s.replay, r).phases[c], now, EncodingFor(s, c, result), result)
  {
    hide *;
    StepParts(s, Coordinator(r));
    OnCourseLabels(s, r, c, now, response, result);
    match r {
      case EndDispatch(_, _) => DispatchOnCourse(s, r, c, now, response, result);
      case Complete(_, _) => CompletionOnCourse(s, r, c, now, response, result);
      case Publish(_) => PublicationOnCourse(s, init, c, now, response, result);
      case Decode(_) => DecodingOnCourse(s, c, now, response, result);
      case _ => assert false;
    }
  }

  lemma OwnStepOnCourse(
      s: State, init: seq<Cell>, r: R.Label, c: nat, now: T.Nanos, response: Response, result: Result)
    requires OnCourse(s, c, now, response, result) && Inv(s, init) && Enabled(s, Coordinator(r)) && r.c == c
    requires CompletesWell(Coordinator(r), c, now)
    ensures OnCourse(Next(s, Coordinator(r)), c, now, response, result)
  {
    OwnPhaseOnCourse(s, init, r, c, now, response, result);
    StepParts(s, Coordinator(r));
    hide R.Next, R.Enabled, Enabled, CompletesWell, CanTell, Inv, PhaseOnCourse, EncodingFor, Next;
    SameAnswer(s, Next(s, Coordinator(r)), c, response, result);
  }

  lemma OnCourseLabels(s: State, r: R.Label, c: nat, now: T.Nanos, response: Response, result: Result)
    requires OnCourse(s, c, now, response, result) && R.Enabled(s.replay, r) && r.c == c
    ensures r.EndDispatch? || r.Complete? || r.Publish? || r.Decode?
    ensures s.replay.calls[c].codec.encode(result).Some?
  {
    hide R.OnTop, CellFor, EncodingFor, Tells, RoundTrips;
  }

  lemma SameAnswer(s: State, t: State, c: nat, response: Response, result: Result)
    requires CanTell(s, c, response, result) && Shaped(t)
    requires t.cells == s.cells && t.target == s.target && t.replay.calls == s.replay.calls
    ensures CanTell(t, c, response, result) && EncodingFor(t, c, result) == EncodingFor(s, c, result)
  {
    hide RoundTrips, Tells;
  }

  /** And in every run, whatever other calls do meanwhile: once the variable has answered the dispatch of call `c`, and
      if its completion clock gives an integer in range, it returns what the variable answered and nothing else. */
  lemma {:induction false} NothingElseIsReported(
      s: State, init: seq<Cell>, ls: seq<Label>, c: nat, now: T.Nanos, response: Response, result: Result)
    requires OnCourse(s, c, now, response, result) && Inv(s, init) && Runs(s, ls)
    requires forall l | l in ls :: CompletesWell(l, c, now)
    ensures OnCourse(After(s, ls), c, now, response, result)
    decreases |ls|
  {
    hide *;
    EmptyRun(s);
    if ls != [] {
      UnfoldRun(s, ls);
      StepInv(s, init, ls[0]);
      assert CompletesWell(ls[0], c, now);
      if ls[0].Coordinator? && ls[0].r.c == c {
        OwnStepOnCourse(s, init, ls[0].r, c, now, response, result);
      } else {
        StaysOnCourse(s, ls[0], c, now, response, result);
      }
      NothingElseIsReported(Next(s, ls[0]), init, ls[1..], c, now, response, result);
    } else {
      assert ls == [];
    }
  }

  lemma ApplyIsReported(s: State, c: nat, now: T.Nanos, result: Result) returns (ls: seq<Label>, t: State)
    requires Shaped(s) && Reserving(s.replay, c, now)
    requires V.WillApply(CellFor(s, c), c) && result == AppliedResult(s, c)
    requires RoundTrips(s.replay.calls[c].codec) && Encodable(s.replay.calls[c].codec, result)
    ensures Runs(s, ls) && t == After(s, ls) && Shaped(t) && OwnLabels(ls, c) && AppliedDispatch(t, c)
    ensures t.target == s.target && t.replay.calls == s.replay.calls
    ensures Stored(t.replay, c, now, EncodingFor(s, c, result), result)
  {
    hide Runs, After, R.OnTop, T.HoldsReservation, V.WillApply, RoundTrips, Encodable, Shaped, Stored, EncodingFor;
    var a, u := DispatchIsApplied(s, c, now);
    var response := Success(CellFor(s, c).calls[c].expected + 1, Applied);
    SameEncoding(s, u, c, result);
    var b;
    b, t := AnswerIsReported(u, c, now, response, result);
    RunsAppend(s, a, b);
    ls := a + b;
  }

  lemma SameEncoding(s: State, t: State, c: nat, result: Result)
    requires Routed(s, c) && Encodable(s.replay.calls[c].codec, result) && t.replay.calls == s.replay.calls
    ensures Routed(t, c) && s.replay.calls[c].codec.encode(result).Some?
    ensures EncodingFor(t, c, result) == EncodingFor(s, c, result)
  {
  }

  /** From any state, a request that finds its key free and expects the current version can run, with no other call
      moving, to where its caller is told APPLIED at the next version and that result is stored for its key. */
  lemma UndisturbedIsApplied(s: State, c: nat, now: T.Nanos) returns (ls: seq<Label>, t: State)
    requires WillBeApplied(s, c, now)
    ensures Runs(s, ls) && t == After(s, ls) && Shaped(t) && OwnLabels(ls, c) && AppliedDispatch(t, c)
    ensures t.target == s.target && t.replay.calls == s.replay.calls
    ensures Stored(t.replay, c, now, EncodingFor(s, c, AppliedResult(s, c)), AppliedResult(s, c))
  {
    var result := AppliedResult(s, c);
    assert Encodable(s.replay.calls[c].codec, result);
    hide Runs, After, Encodable, V.WillApply, RoundTrips, R.MayBegin, R.Fallback, T.Decide, T.Pruned;
    hide Reserving, OwnLabels, EncodingFor;
    var a, u := Reserves(s, c, now);
    assert CellFor(u, c) == CellFor(s, c) && AppliedResult(u, c) == result;
    SameEncoding(s, u, c, result);
    hide Shaped, CellFor, AppliedDispatch, AppliedResult, Stored, WillReserve;
    var b;
    b, t := ApplyIsReported(u, c, now, result);
    RunsAppend(s, a, b);
    OwnAppend(a, b, c);
    ls := a + b;
  }
}
