/** Any number of concurrent `read` and `apply` calls on one atomic variable, as a transition system.

    A snapshot object is modelled with its address.  A new snapshot may take any address that no live reference
    holds, so addresses may be used again once their object is garbage.  `log` is a history variable: each call adds
    its own operation in the step in which it takes effect. */
module VariableProtocol {
  import opened Wrappers
  import opened ReplayCodec
  import opened VariableCell

  type CallId = nat
  type Address = nat

  datatype Snap = Snap(at: Address, state: ControlState, version: nat)

  datatype Phase =
    | Idle
    | Called
    | Captured(seen: Snap)                                            // outside the lock, about to compare
    | Ready(seen: Snap, next: Option<Snap>, response: Response)       // about to revalidate
    | Returning(response: Response)
    | Done(response: Response)

  datatype State = State(calls: seq<Command>, current: Snap, phases: seq<Phase>, log: seq<Op>)

  datatype Label =
    | Call(c: CallId)
    | Capture(c: CallId)
    | Compare(c: CallId, at: Address)
    | Revalidate(c: CallId)
    | Return(c: CallId)

  /** No live reference to a snapshot object holds address `a`. */
  predicate Unused(s: State, a: Address) {
    && a != s.current.at
    && forall c | 0 <= c < |s.phases| ::
         && (s.phases[c].Captured? || s.phases[c].Ready? ==> s.phases[c].seen.at != a)
         && (s.phases[c].Ready? && s.phases[c].next.Some? ==> s.phases[c].next.value.at != a)
  }

  predicate Enabled(s: State, l: Label) {
    && l.c < |s.calls| == |s.phases|
    && match l
       case Call(c) => s.phases[c].Idle?
       case Capture(c) => s.phases[c].Called?
       case Compare(c, at) => s.phases[c].Captured? && s.calls[c].Apply? && Unused(s, at)
       case Revalidate(c) => s.phases[c].Ready?
       case Return(c) => s.phases[c].Returning?
  }

  function Moved(s: State, c: CallId, p: Phase): State
    requires c < |s.phases|
  {
    s.(phases := s.phases[c := p])
  }

  /** Call `c` takes effect now, with response `r`. */
  function Logged(s: State, c: CallId, r: Response): State
    requires c < |s.calls|
  {
    s.(log := s.log + [Op(c, s.calls[c], r)])
  }

  function CaptureStep(s: State, c: CallId): State
    requires c < |s.calls| == |s.phases|
  {
    match s.calls[c]
    case Read(valid) =>
      var r := if valid then Value(s.current.version, s.current.state) else Failure;
      Moved(Logged(s, c, r), c, Returning(r))
    case Apply(valid, expected, _, equality) =>
      if !valid then Moved(Logged(s, c, Rejection(InvalidCommand)), c, Returning(Rejection(InvalidCommand)))
      else if expected != s.current.version then
        Moved(Logged(s, c, Rejection(PreconditionFailed)), c, Returning(Rejection(PreconditionFailed)))
      else if equality.Raises? then Moved(Logged(s, c, Failure), c, Captured(s.current))
      else if equality.Control? then Moved(Logged(s, c, Interrupted), c, Captured(s.current))
      else Moved(s, c, Captured(s.current))
  }

  function CompareStep(s: State, c: CallId, at: Address): Phase
    requires c < |s.calls| == |s.phases| && s.phases[c].Captured? && s.calls[c].Apply?
  {
    var seen := s.phases[c].seen;
    match s.calls[c].equality
    case Raises => Returning(Failure)
    case Control => Returning(Interrupted)
    case Same => Ready(seen, None, Success(seen.version, NoChange))
    case Different =>
      if seen.version == MAX_SAFE_VERSION then Ready(seen, None, Failure)
      else Ready(seen, Some(Snap(at, s.calls[c].candidate, seen.version + 1)), Success(seen.version + 1, Applied))
  }

  function RevalidateStep(s: State, c: CallId): State
    requires c < |s.calls| == |s.phases| && s.phases[c].Ready?
  {
    var p := s.phases[c];
    if s.current.at != p.seen.at then
      Moved(Logged(s, c, Rejection(PreconditionFailed)), c, Returning(Rejection(PreconditionFailed)))
    else
      Moved(Logged(s, c, p.response), c,
          Returning(p.response)).(current := if p.next.Some? then p.next.value else s.current)
  }

  function Next(s: State, l: Label): (r: State)
    requires Enabled(s, l)
    ensures r.calls == s.calls && |r.phases| == |s.phases|
  {
    match l
    case Call(c) => Moved(s, c, Called)
    case Capture(c) => CaptureStep(s, c)
    case Compare(c, at) => Moved(s, c, CompareStep(s, c, at))
    case Revalidate(c) => RevalidateStep(s, c)
    case Return(c) => Moved(s, c, Done(s.phases[c].response))
  }

  ghost predicate Runs(s: State, ls: seq<Label>)
    decreases |ls|
  {
    ls == [] || (Enabled(s, ls[0]) && Runs(Next(s, ls[0]), ls[1..]))
  }

  ghost function After(s: State, ls: seq<Label>): State
    requires Runs(s, ls)
    decreases |ls|
  {
    if ls == [] then s else After(Next(s, ls[0]), ls[1..])
  }

  // ---------------------------------------------------------------- the invariant

  function CellOf(snap: Snap): Cell { Cell(snap.state, snap.version) }

  ghost predicate Init(s: State, init: Cell) {
    && init.version <= MAX_SAFE_VERSION && CellOf(s.current) == init && s.log == []
    && |s.phases| == |s.calls| && forall c | 0 <= c < |s.phases| :: s.phases[c].Idle?
  }

  /** A captured snapshot is the current one exactly when the versions agree: no ABA. */
  ghost predicate SeenOk(s: State, c: CallId, seen: Snap)
    requires c < |s.calls|
  {
    && s.calls[c].Apply? && s.calls[c].valid && s.calls[c].expected == seen.version <= s.current.version
    && (seen.version == s.current.version ==> seen == s.current)
    && (seen.at == s.current.at ==> seen == s.current)
  }

  ghost predicate CallOk(s: State, c: CallId)
    requires c < |s.calls| == |s.phases|
  {
    var p := s.phases[c];
    match p
    case Captured(seen) => SeenOk(s, c, seen)
    case Ready(seen, next, response) =>
      && SeenOk(s, c, seen)
      && (s.calls[c].equality.Same? || s.calls[c].equality.Different?)
      && (next.Some? ==> next.value.version == seen.version + 1)
      && Meaning(CellOf(seen), s.calls[c]) == (if next.Some? then CellOf(next.value) else CellOf(seen), response)
    case _ => true
  }

  ghost predicate Prepares(s: State, c: CallId)
    requires c < |s.phases|
  {
    s.phases[c].Ready? && s.phases[c].next.Some?
  }

  /** A snapshot that is not published yet shares its address with no other live snapshot. */
  ghost predicate NextApart(s: State)
    requires |s.phases| == |s.calls|
  {
    forall c | 0 <= c < |s.phases| && Prepares(s, c) ::
      var a := s.phases[c].next.value.at;
      && a != s.current.at
      && (forall d | 0 <= d < |s.phases| && (s.phases[d].Captured? || s.phases[d].Ready?) :: s.phases[d].seen.at != a)
      && (forall d | 0 <= d < |s.phases| && d != c && Prepares(s, d) :: s.phases[d].next.value.at != a)
  }

  /** The call has taken effect. */
  predicate Effective(s: State, c: CallId)
    requires c < |s.calls| == |s.phases|
  {
    || s.phases[c].Returning? || s.phases[c].Done?
    || (s.phases[c].Captured? && s.calls[c].Apply? && (s.calls[c].equality.Raises? || s.calls[c].equality.Control?))
  }

  /** The response a call that has taken effect will return, or has returned. */
  function Told(s: State, c: CallId): Response
    requires c < |s.calls| == |s.phases| && Effective(s, c)
  {
    if s.phases[c].Captured? then (if s.calls[c].equality.Raises? then Failure else Interrupted)
    else s.phases[c].response
  }

  /** The log holds each call that has taken effect exactly once, with its response, and no other call. */
  ghost predicate LogOk(s: State)
    requires |s.phases| == |s.calls|
  {
    && (forall i | 0 <= i < |s.log| ::
          var op := s.log[i];
          op.id < |s.calls| && op.cmd == s.calls[op.id] && Effective(s, op.id) && op.response == Told(s, op.id))
    && (forall i, j | 0 <= i < j < |s.log| :: s.log[i].id != s.log[j].id)
    && (forall c | 0 <= c < |s.calls| && Effective(s, c) :: InLog(s, c))
  }

  ghost predicate InLog(s: State, c: CallId) {
    exists i :: 0 <= i < |s.log| && s.log[i].id == c
  }

  ghost predicate Inv(s: State, init: Cell) {
    && |s.phases| == |s.calls|
    && init.version <= MAX_SAFE_VERSION
    && (forall c | 0 <= c < |s.calls| :: CallOk(s, c))
    && NextApart(s)
    && LogOk(s)
    && Legal(init, s.log) && CellAfter(init, s.log) == CellOf(s.current)
  }

  // ---------------------------------------------------------------- preservation

  /** Adding the operation of a call that takes effect now. */
  lemma LogGrows(s: State, s': State, c: CallId, r: Response)
    requires |s.phases| == |s.calls| && LogOk(s) && c < |s.calls| && !Effective(s, c)
    requires s'.calls == s.calls && s'.log == s.log + [Op(c, s.calls[c], r)]
    requires |s'.phases| == |s.phases| && s'.phases == s.phases[c := s'.phases[c]] && Effective(s', c)
             && Told(s', c) == r
    ensures LogOk(s')
  {
    forall d | 0 <= d < |s.calls| && Effective(s', d)
      ensures InLog(s', d)
    {
      if d == c {
        assert s'.log[|s.log|].id == c;
      } else {
        assert Effective(s, d) && InLog(s, d);
        var i :| 0 <= i < |s.log| && s.log[i].id == d;
        assert s'.log[i].id == d;
      }
    }
    forall i | 0 <= i < |s'.log|
      ensures s'.log[i].id < |s.calls| && Effective(s', s'.log[i].id) && s'.log[i].response == Told(s', s'.log[i].id)
    {
      if i < |s.log| {
        assert s'.log[i] == s.log[i] && s.log[i].id != c;
      }
    }
  }

  lemma LogStays(s: State, s': State, c: CallId)
    requires |s.phases| == |s.calls| && LogOk(s) && c < |s.calls|
    requires s'.calls == s.calls && s'.log == s.log && |s'.phases| == |s.phases|
             && s'.phases == s.phases[c := s'.phases[c]]
    requires Effective(s', c) == Effective(s, c) && (Effective(s, c) ==> Told(s', c) == Told(s, c))
    ensures LogOk(s')
  {
    forall d | 0 <= d < |s.calls| && Effective(s', d)
      ensures InLog(s', d)
    {
      assert Effective(s, d) && InLog(s, d);
      var i :| 0 <= i < |s.log| && s.log[i].id == d;
      assert s'.log[i].id == d;
    }
  }

  lemma HistoryGrows(s: State, init: Cell, op: Op, cell: Cell)
    requires Legal(init, s.log) && CellAfter(init, s.log) == CellOf(s.current)
    requires Meaning(CellOf(s.current), op.cmd) == (cell, op.response)
    ensures Legal(init, s.log + [op]) && CellAfter(init, s.log + [op]) == cell
  {
    hide Meaning;
    LegalAppend(init, s.log, op);
    CellAfterAppend(init, s.log, op);
  }

  /** The other calls do not notice a change of phase that publishes nothing. */
  lemma OthersOk(s: State, s': State, c: CallId)
    requires |s.phases| == |s.calls| && |s'.phases| == |s.phases| && c < |s.calls|
    requires forall d | 0 <= d < |s.calls| :: CallOk(s, d)
    requires s'.calls == s.calls && s'.current == s.current && s'.phases == s.phases[c := s'.phases[c]]
    requires CallOk(s', c)
    ensures forall d | 0 <= d < |s.calls| :: CallOk(s', d)
  {
    forall d | 0 <= d < |s.calls|
      ensures CallOk(s', d)
    {
      assert CallOk(s, d);
      hide Meaning;
    }
  }

  lemma ApartStays(s: State, s': State, c: CallId)
    requires |s.phases| == |s.calls| && |s'.phases| == |s.phases| && c < |s.calls| && NextApart(s)
    requires s'.calls == s.calls && s'.current == s.current && s'.phases == s.phases[c := s'.phases[c]]
    requires !Prepares(s', c)
    requires s'.phases[c].Captured? || s'.phases[c].Ready? ==>
               s'.phases[c].seen == s.current || ((s.phases[c].Captured? || s.phases[c].Ready?)
                   && s'.phases[c].seen == s.phases[c].seen)
    ensures NextApart(s')
  {
  }

  /** A call takes effect without publishing anything. */
  lemma EffectInv(s: State, s': State, init: Cell, c: CallId, r: Response)
    requires Inv(s, init) && c < |s.calls| == |s'.phases| && !Effective(s, c)
    requires s' == Moved(Logged(s, c, r), c, s'.phases[c])
    requires Effective(s', c) && Told(s', c) == r && CallOk(s', c) && !s'.phases[c].Ready?
    requires s'.phases[c].Captured? ==> s'.phases[c].seen == s.current
    requires Meaning(CellOf(s.current), s.calls[c]) == (CellOf(s.current), r)
    ensures Inv(s', init)
  {
    hide Meaning, CallOk, LogOk, Legal, CellAfter, NextApart, Effective, Told;
    HistoryGrows(s, init, Op(c, s.calls[c], r), CellOf(s.current));
    LogGrows(s, s', c, r);
    OthersOk(s, s', c);
    ApartStays(s, s', c);
  }

  lemma CaptureInv(s: State, init: Cell, c: CallId)
    requires Inv(s, init) && Enabled(s, Capture(c))
    ensures Inv(CaptureStep(s, c), init)
  {
    var s' := CaptureStep(s, c);
    assert !Effective(s, c);
    if s'.log == s.log {
      hide Inv;
      CaptureQuietly(s, init, c);
    } else {
      CaptureEffect(s, c);
      var r := s'.log[|s.log|].response;
      hide Inv, CallOk, Meaning, CaptureStep, Effective, Told;
      EffectInv(s, s', init, c, r);
    }
  }

  lemma CaptureEffect(s: State, c: CallId)
    requires Enabled(s, Capture(c)) && CaptureStep(s, c).log != s.log
    ensures var s' := CaptureStep(s, c);
            && |s'.log| == |s.log| + 1
            && var r := s'.log[|s.log|].response;
               && s' == Moved(Logged(s, c, r), c, s'.phases[c])
               && Effective(s', c) && Told(s', c) == r && CallOk(s', c) && !s'.phases[c].Ready?
               && (s'.phases[c].Captured? ==> s'.phases[c].seen == s.current)
               && Meaning(CellOf(s.current), s.calls[c]) == (CellOf(s.current), r)
  {
  }

  lemma QuietShape(s: State, c: CallId)
    requires Enabled(s, Capture(c)) && CaptureStep(s, c).log == s.log
    ensures var s' := CaptureStep(s, c);
            CallOk(s', c) && s' == Moved(s, c, Captured(s.current)) && !Effective(s', c) && !Effective(s, c)
  {
    hide Meaning;
  }

  lemma CaptureQuietly(s: State, init: Cell, c: CallId)
    requires Inv(s, init) && Enabled(s, Capture(c)) && CaptureStep(s, c).log == s.log
    ensures Inv(CaptureStep(s, c), init)
  {
    hide LogOk, Legal, CellAfter, Meaning, CaptureStep, NextApart, CallOk, Effective;
    var s' := CaptureStep(s, c);
    QuietShape(s, c);
    LogStays(s, s', c);
    OthersOk(s, s', c);
    ApartStays(s, s', c);
  }

  lemma ComparedOk(s: State, c: CallId, at: Address)
    requires Enabled(s, Compare(c, at)) && CallOk(s, c)
    ensures var s' := Moved(s, c, CompareStep(s, c, at));
            CallOk(s', c) && Effective(s', c) == Effective(s, c) && (Effective(s, c) ==> Told(s', c) == Told(s, c))
  {
    hide Unused;
  }

  lemma CompareInv(s: State, init: Cell, c: CallId, at: Address)
    requires Inv(s, init) && Enabled(s, Compare(c, at))
    ensures Inv(Next(s, Compare(c, at)), init)
  {
    var s' := Next(s, Compare(c, at));
    assert CallOk(s, c);
    hide LogOk, Legal, CellAfter, Meaning, CallOk, CompareStep, NextApart, Effective, Told;
    ComparedOk(s, c, at);
    LogStays(s, s', c);
    OthersOk(s, s', c);
    ComparedApart(s, c, at);
  }

  lemma ComparedApart(s: State, c: CallId, at: Address)
    requires |s.phases| == |s.calls| && NextApart(s) && Enabled(s, Compare(c, at))
    ensures NextApart(Moved(s, c, CompareStep(s, c, at)))
  {
    var s' := Moved(s, c, CompareStep(s, c, at));
    if !Prepares(s', c) {
      ApartStays(s, s', c);
    }
  }

  /** Revalidation by identity: the snapshot has changed exactly if the precondition is stale at this instant. */
  lemma RevalidationIsThePrecondition(s: State, init: Cell, c: CallId)
    requires Inv(s, init) && Enabled(s, Revalidate(c))
    ensures s.calls[c].Apply? && (s.current.at != s.phases[c].seen.at <==> s.calls[c].expected != s.current.version)
    ensures s.current.at == s.phases[c].seen.at ==> s.phases[c].seen == s.current
  {
    assert CallOk(s, c);
    hide LogOk, Legal, CellAfter, Meaning, NextApart;
  }

  lemma RejectInv(s: State, init: Cell, c: CallId)
    requires Inv(s, init) && Enabled(s, Revalidate(c)) && s.current.at != s.phases[c].seen.at
    ensures Inv(RevalidateStep(s, c), init)
  {
    var s' := RevalidateStep(s, c);
    RevalidationIsThePrecondition(s, init, c);
    assert CallOk(s, c) && !Effective(s, c);
    var op := Op(c, s.calls[c], Rejection(PreconditionFailed));
    HistoryGrows(s, init, op, CellOf(s.current));
    LogGrows(s, s', c, op.response);
    hide LogOk, Legal, CellAfter, Meaning;
    OthersOk(s, s', c);
    ApartStays(s, s', c);
  }

  lemma ReadyFacts(s: State, init: Cell, c: CallId)
    requires Inv(s, init) && Enabled(s, Revalidate(c)) && s.current.at == s.phases[c].seen.at
    ensures var p := s.phases[c];
            && !Effective(s, c) && s.calls[c].Apply?
            && (p.next.Some? ==> p.next.value.version == s.current.version + 1)
            && Meaning(CellOf(s.current),
               s.calls[c]) == (if p.next.Some? then CellOf(p.next.value) else CellOf(s.current), p.response)
  {
    RevalidationIsThePrecondition(s, init, c);
    assert CallOk(s, c);
    hide LogOk, Legal, CellAfter, Meaning, NextApart;
  }

  lemma AcceptInv(s: State, init: Cell, c: CallId)
    requires Inv(s, init) && Enabled(s, Revalidate(c)) && s.current.at == s.phases[c].seen.at
    ensures Inv(RevalidateStep(s, c), init)
  {
    var s' := RevalidateStep(s, c);
    ReadyFacts(s, init, c);
    hide LogOk, Legal, CellAfter, CallOk, Meaning, NextApart;
    HistoryGrows(s, init, Op(c, s.calls[c], s.phases[c].response), CellOf(s'.current));
    LogGrows(s, s', c, s.phases[c].response);
    ReturningOk(s', c);
    if s.phases[c].next.None? {
      OthersOk(s, s', c);
      ApartStays(s, s', c);
    } else {
      PublishedOk(s, s', c);
    }
  }

  lemma ReturningOk(s: State, c: CallId)
    requires c < |s.calls| == |s.phases| && s.phases[c].Returning?
    ensures CallOk(s, c)
  {
  }

  /** Publication moves the version past every captured snapshot and takes an address none of them has. */
  lemma PublishedOk(s: State, s': State, c: CallId)
    requires |s.phases| == |s.calls| && |s'.phases| == |s.phases| && c < |s.calls| && NextApart(s) && Prepares(s, c)
    requires forall d | 0 <= d < |s.calls| :: CallOk(s, d)
    requires s'.calls == s.calls && s'.current == s.phases[c].next.value && s'.phases == s.phases[c := s'.phases[c]]
    requires s'.phases[c].Returning? && s'.current.version == s.current.version + 1
    ensures NextApart(s') && forall d | 0 <= d < |s.calls| :: CallOk(s', d)
  {
    hide Meaning;
    forall d | 0 <= d < |s.calls|
      ensures CallOk(s', d)
    {
      assert CallOk(s, d);
    }
  }

  lemma NextInv(s: State, init: Cell, l: Label)
    requires Inv(s, init) && Enabled(s, l)
    ensures Inv(Next(s, l), init)
  {
    match l {
      case Capture(c) => CaptureInv(s, init, c);
      case Compare(c, at) => CompareInv(s, init, c, at);
      case Revalidate(c) =>
        hide Inv, Unused;
        if s.current.at != s.phases[c].seen.at { RejectInv(s, init, c); } else { AcceptInv(s, init, c); }
      case Call(c) => QuietInv(s, init, l);
      case Return(c) => QuietInv(s, init, l);
    }
  }

  lemma QuietInv(s: State, init: Cell, l: Label)
    requires Inv(s, init) && Enabled(s, l) && (l.Call? || l.Return?)
    ensures Inv(Next(s, l), init)
  {
    var s' := Next(s, l);
    LogStays(s, s', l.c);
    hide LogOk, Legal, CellAfter, Meaning;
    OthersOk(s, s', l.c);
    ApartStays(s, s', l.c);
  }

  lemma InitInv(s: State, init: Cell)
    requires Init(s, init)
    ensures Inv(s, init)
  {
  }

  /** Every reachable state satisfies the invariant, and its log extends the log of every state before it. */
  lemma {:induction false} RunInv(s: State, init: Cell, ls: seq<Label>)
    requires Inv(s, init) && Runs(s, ls)
    ensures Inv(After(s, ls), init) && After(s, ls).calls == s.calls && s.log <= After(s, ls).log
    decreases |ls|
  {
    if ls != [] {
      LogOnlyGrows(s, ls[0]);
      hide Next, Enabled, Inv;
      NextInv(s, init, ls[0]);
      RunInv(Next(s, ls[0]), init, ls[1..]);
    }
  }

  lemma LogOnlyGrows(s: State, l: Label)
    requires Enabled(s, l)
    ensures s.log <= Next(s, l).log
  {
    hide Unused;
  }

  // ---------------------------------------------------------------- linearizability

  /** In every run the log is a legal sequential history of the cell from its initial value to its current one.  Every
      operation in it is that of a call that was made, with the call's own command and the response it returns; no call
      occurs twice, and every call that has returned occurs. */
  lemma Linearizable(s: State, init: Cell, ls: seq<Label>)
    requires Init(s, init) && Runs(s, ls)
    ensures var t := After(s, ls);
            && |t.phases| == |t.calls| && t.calls == s.calls
            && (forall i | 0 <= i < |t.log| ::
                  var c := t.log[i].id;
                  && c < |t.calls| && t.log[i].cmd == t.calls[c]
                  && Effective(t, c) && t.log[i].response == Told(t, c))
            && Legal(init, t.log) && CellAfter(init, t.log) == CellOf(t.current)
            && (forall i, j | 0 <= i < j < |t.log| :: t.log[i].id != t.log[j].id)
            && (forall c | 0 <= c < |t.phases| && t.phases[c].Done? ::
                  exists i :: 0 <= i < |t.log| && t.log[i] == Op(c, t.calls[c], t.phases[c].response))
            && t.current.version == init.version + AppliedCount(t.log) <= MAX_SAFE_VERSION
  {
    InitInv(s, init);
    RunInv(s, init, ls);
    var t := After(s, ls);
    hide Runs, After, Meaning, CellAfter;
    VersionCountsApplied(init, t.log);
    hide Legal;
    forall c | 0 <= c < |t.phases| && t.phases[c].Done?
      ensures exists i :: 0 <= i < |t.log| && t.log[i] == Op(c, t.calls[c], t.phases[c].response)
    {
      assert Effective(t, c) && InLog(t, c);
      var i :| 0 <= i < |t.log| && t.log[i].id == c;
      assert t.log[i] == Op(c, t.calls[c], t.phases[c].response);
    }
  }

  /** In every run each call that has returned has its place in the log, and was told exactly what the operations before
      that place left: a read their version and their state, a command what it came to. */
  lemma EveryCallIsTold(s: State, init: Cell, ls: seq<Label>, c: CallId) returns (i: nat)
    requires Init(s, init) && Runs(s, ls) && c < |s.calls|
    requires |After(s, ls).phases| == |s.calls| && After(s, ls).phases[c].Done?
    ensures var t := After(s, ls);
            && t.calls == s.calls
            && i < |t.log| && t.log[i] == Op(c, s.calls[c], t.phases[c].response) && ToldExactly(init, t.log, i)
  {
    InitInv(s, init);
    RunInv(s, init, ls);
    assert init.version <= MAX_SAFE_VERSION;
    hide Runs, After, Inv, Init, ToldExactly, Legal;
    i := LoggedAt(After(s, ls), init, c);
    LogIsLegal(After(s, ls), init);
    EveryOperationIsTold(init, After(s, ls).log, i);
  }

  /** Real-time order: a call that returned before another was made comes before it in every later log. */
  lemma RealTimeOrder(s: State, init: Cell, c: CallId, d: CallId, ls: seq<Label>, i: nat, j: nat)
    requires Inv(s, init) && Runs(s, ls) && c < |s.calls| && d < |s.calls| && s.phases[c].Done? && s.phases[d].Idle?
    requires i < |After(s, ls).log| && j < |After(s, ls).log| && After(s, ls).log[i].id == c
             && After(s, ls).log[j].id == d
    ensures i < j
  {
    RunInv(s, init, ls);
    var t := After(s, ls);
    hide Runs, After;
    EarlierEntries(s, init, c, d);
    hide Inv;
    var k :| 0 <= k < |s.log| && s.log[k].id == c;
    assert t.log[k] == s.log[k];
    assert k == i;
    assert forall m | 0 <= m < |s.log| :: t.log[m] == s.log[m];
  }

  /** A call that has returned is in the log, and one that has not been made is not. */
  lemma EarlierEntries(s: State, init: Cell, c: CallId, d: CallId)
    requires Inv(s, init) && c < |s.calls| && d < |s.calls| && s.phases[c].Done? && s.phases[d].Idle?
    ensures exists k :: 0 <= k < |s.log| && s.log[k].id == c
    ensures forall k | 0 <= k < |s.log| :: s.log[k].id != d
  {
    hide Legal, CellAfter, NextApart;
    assert Effective(s, c) && InLog(s, c);
    assert forall m | 0 <= m < |s.log| :: Effective(s, s.log[m].id);
  }

  /** Of two reads that do not overlap, the later never shows an earlier version, and equal versions show equal
      states. */
  lemma LaterReadsNeverGoBack(s: State, init: Cell, c: CallId, d: CallId, ls: seq<Label>)
    requires Inv(s, init) && Runs(s, ls) && c < |s.calls| && d < |s.calls| && s.phases[c].Done? && s.phases[d].Idle?
    requires |After(s, ls).phases| == |s.phases| && After(s, ls).phases[d].Done?
    requires s.phases[c].response.Value? && After(s, ls).phases[d].response.Value?
    ensures var early, late := s.phases[c].response, After(s, ls).phases[d].response;
            && early.version <= late.version
            && (early.version == late.version ==> early == late)
  {
    var t := After(s, ls);
    RunInv(s, init, ls);
    hide Runs, After, Inv;
    var k := LoggedAt(s, init, c);
    var j := LoggedAt(t, init, d);
    assert t.log[k] == s.log[k];
    RealTimeOrder(s, init, c, d, ls, k, j);
    LogIsLegal(t, init);
    ReadsNeverGoBack(init, t.log, k, j);
  }

  /** The place in the history of a call that has returned. */
  lemma LoggedAt(s: State, init: Cell, c: CallId) returns (i: nat)
    requires Inv(s, init) && c < |s.calls| && s.phases[c].Done?
    ensures i < |s.log| && s.log[i] == Op(c, s.calls[c], s.phases[c].response)
  {
    hide NextApart, CallOk, Legal, CellAfter;
    assert Effective(s, c) && InLog(s, c);
    i :| 0 <= i < |s.log| && s.log[i].id == c;
  }

  lemma LogIsLegal(s: State, init: Cell)
    requires Inv(s, init)
    ensures Legal(init, s.log) && CellAfter(init, s.log) == CellOf(s.current)
  {
    hide LogOk, NextApart, CallOk, Legal, CellAfter;
  }

  // ---------------------------------------------------------------- progress

  /** Steps a call still has ahead of it, at most. */
  function Weight(p: Phase): nat {
    match p
    case Idle => 5
    case Called => 4
    case Captured(_) => 3
    case Ready(_, _, _) => 2
    case Returning(_) => 1
    case Done(_) => 0
  }

  function Total(ps: seq<Phase>): nat {
    if ps == [] then 0 else Weight(ps[0]) + Total(ps[1..])
  }

  lemma {:induction false} TotalUpdate(ps: seq<Phase>, c: nat, p: Phase)
    requires c < |ps|
    ensures Total(ps[c := p]) + Weight(ps[c]) == Total(ps) + Weight(p)
    decreases |ps|
  {
    hide Weight;
    if c == 0 {
      assert ps[c := p][1..] == ps[1..];
    } else {
      TotalUpdate(ps[1..], c - 1, p);
      assert ps[c := p][1..] == ps[1..][c - 1 := p];
    }
  }

  lemma StepPhase(s: State, l: Label)
    requires Enabled(s, l)
    ensures var p := Next(s, l).phases[l.c];
            Next(s, l).phases == s.phases[l.c := p] && Weight(p) < Weight(s.phases[l.c]) && !s.phases[l.c].Done?
  {
    hide Unused;
  }

  lemma StepDecreases(s: State, l: Label)
    requires Enabled(s, l)
    ensures Total(Next(s, l).phases) < Total(s.phases)
  {
    StepPhase(s, l);
    hide Next;
    TotalUpdate(s.phases, l.c, Next(s, l).phases[l.c]);
  }

  /** The step a call can take, whatever the others are doing. */
  lemma CallMoves(s: State, c: CallId) returns (l: Label)
    requires c < |s.calls| == |s.phases| && !s.phases[c].Done? && (s.phases[c].Captured? ==> s.calls[c].Apply?)
    ensures l.c == c && Enabled(s, l)
  {
    match s.phases[c] {
      case Idle => l := Call(c);
      case Called => l := Capture(c);
      case Captured(_) =>
        var at := FreshAddress(s);
        l := Compare(c, at);
      case Ready(_, _, _) => l := Revalidate(c);
      case Returning(_) => l := Return(c);
      case Done(_) => assert false;
    }
  }

  /** There is always an address that no live reference holds. */
  lemma FreshAddress(s: State) returns (a: Address)
    ensures Unused(s, a)
  {
    a := s.current.at + 1;
    for i := 0 to |s.phases|
      invariant a > s.current.at
      invariant forall c | 0 <= c < i :: AddressesBelow(s.phases[c], a)
    {
      var seen := if s.phases[i].Captured? || s.phases[i].Ready? then s.phases[i].seen.at else 0;
      var next := if s.phases[i].Ready? && s.phases[i].next.Some? then s.phases[i].next.value.at else 0;
      a := a + seen + next + 1;
    }
  }

  predicate AddressesBelow(p: Phase, a: Address) {
    && (p.Captured? || p.Ready? ==> p.seen.at < a)
    && (p.Ready? && p.next.Some? ==> p.next.value.at < a)
  }

  lemma ConsRuns(s: State, l: Label, ls: seq<Label>)
    requires Enabled(s, l) && Runs(Next(s, l), ls)
    ensures Runs(s, [l] + ls) && After(s, [l] + ls) == After(Next(s, l), ls)
  {
    hide Enabled, Next;
    assert ([l] + ls)[1..] == ls;
  }

  lemma UnfoldRun(s: State, ls: seq<Label>)
    requires Runs(s, ls) && ls != []
    ensures Enabled(s, ls[0]) && Runs(Next(s, ls[0]), ls[1..]) && After(s, ls) == After(Next(s, ls[0]), ls[1..])
  {
    hide Enabled, Next;
  }

  lemma NoSteps(s: State)
    ensures Runs(s, []) && After(s, []) == s
  {
  }

  ghost predicate OnlyOf(ls: seq<Label>, c: CallId) {
    forall i | 0 <= i < |ls| :: ls[i].c == c
  }

  /** Left alone, any call comes to its end, whatever it is told. */
  lemma {:induction false} EndsAlone(s: State, c: CallId) returns (ls: seq<Label>, t: State)
    requires c < |s.calls| == |s.phases| && s.calls[c].Apply?
    ensures Runs(s, ls) && t == After(s, ls) && OnlyOf(ls, c) && t.calls == s.calls && |t.phases| == |s.phases|
    ensures t.phases[c].Done?
    decreases Weight(s.phases[c])
  {
    NoSteps(s);
    ls, t := [], s;
    if !s.phases[c].Done? {
      hide Enabled, Next, Weight, Runs, After;
      var l := CallMoves(s, c);
      StepPhase(s, l);
      ls, t := EndsAlone(Next(s, l), c);
      ConsRuns(s, l, ls);
      ls := [l] + ls;
    }
  }

  /** A call that changes the state and expects the current version. */
  predicate WillApply(s: State, c: CallId) {
    && c < |s.calls| == |s.phases| && s.phases[c].Idle?
    && s.calls[c].Apply? && s.calls[c].valid && s.calls[c].equality.Different?
    && s.calls[c].expected == s.current.version < MAX_SAFE_VERSION
  }

  lemma CaptureAndCompare(s: State, c: CallId, at: Address) returns (ls: seq<Label>, t: State)
    requires WillApply(s, c) && Unused(s, at)
    ensures Runs(s, ls) && t == After(s, ls) && OnlyOf(ls, c)
    ensures t.calls == s.calls && t.current == s.current && |t.phases| == |s.phases|
    ensures var v := s.current.version + 1;
            t.phases[c] == Ready(s.current, Some(Snap(at, s.calls[c].candidate, v)), Success(v, Applied))
  {
    var s1 := Moved(s, c, Called);
    var s2 := Moved(s1, c, Captured(s.current));
    t := Next(s2, Compare(c, at));
    assert Enabled(s, Call(c)) && Next(s, Call(c)) == s1;
    assert Enabled(s1, Capture(c)) && Next(s1, Capture(c)) == s2;
    assert Enabled(s2, Compare(c, at));
    hide Next, Enabled, Runs, After, Unused;
    NoSteps(t);
    ConsRuns(s2, Compare(c, at), []);
    ConsRuns(s1, Capture(c), [Compare(c, at)] + []);
    ConsRuns(s, Call(c), [Capture(c)] + ([Compare(c, at)] + []));
    ls := [Call(c)] + ([Capture(c)] + ([Compare(c, at)] + []));
  }

  lemma PublishAndReturn(s: State, c: CallId) returns (ls: seq<Label>, t: State)
    requires c < |s.calls| == |s.phases| && s.phases[c].Ready? && s.phases[c].seen.at == s.current.at
    ensures Runs(s, ls) && t == After(s, ls) && OnlyOf(ls, c)
    ensures t.calls == s.calls && |t.phases| == |s.phases| && t.phases[c] == Done(s.phases[c].response)
  {
    var s1 := Next(s, Revalidate(c));
    t := Next(s1, Return(c));
    hide Next, Enabled, Runs, After;
    NoSteps(t);
    ConsRuns(s1, Return(c), []);
    ConsRuns(s, Revalidate(c), [Return(c)] + []);
    ls := [Revalidate(c)] + ([Return(c)] + []);
  }

  lemma {:induction false} RunsAppend(s: State, a: seq<Label>, b: seq<Label>)
    requires Runs(s, a) && Runs(After(s, a), b)
    ensures Runs(s, a + b) && After(s, a + b) == After(After(s, a), b)
    decreases |a|
  {
    hide Next, Enabled;
    if a == [] {
      assert a + b == b;
    } else {
      RunsAppend(Next(s, a[0]), a[1..], b);
      assert (a + b)[1..] == a[1..] + b;
    }
  }

  /** Left alone, such a call is applied. */
  lemma UndisturbedApplies(s: State, c: CallId) returns (ls: seq<Label>, t: State)
    requires WillApply(s, c)
    ensures Runs(s, ls) && t == After(s, ls) && OnlyOf(ls, c) && t.calls == s.calls && |t.phases| == |s.phases|
    ensures t.phases[c] == Done(Success(s.calls[c].expected + 1, Applied))
  {
    hide Runs, After, Unused;
    var at := FreshAddress(s);
    var a, u := CaptureAndCompare(s, c, at);
    var b;
    b, t := PublishAndReturn(u, c);
    RunsAppend(s, a, b);
    ls := a + b;
  }
}
