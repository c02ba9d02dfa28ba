/** The one-step meaning of the atomic variable: a cell that compares versions, and histories of it. */
module VariableCell {
  import opened ReplayCodec

  /** A scalar, map or weighted-routing state, as canonical text. */
  type ControlState = string

  const MAX_SAFE_VERSION := 0x1F_FFFF_FFFF_FFFF

  datatype Cell = Cell(state: ControlState, version: nat)

  /** What comparing the candidate with the captured state gives.  It is caller code, so it need not agree with equality
      of states; `Control` is an exception that is not an ordinary one. */
  datatype Equality = Same | Different | Raises | Control

  datatype Command =
    | Read(valid: bool)
    | Apply(valid: bool, expected: int, candidate: ControlState, equality: Equality)

  datatype Response =
    | Value(version: nat, state: ControlState)
    | Success(version: nat, evidence: Evidence)
    | Rejection(reason: Reason)
    | Failure
    | Interrupted

  function Meaning(cell: Cell, cmd: Command): (Cell, Response) {
    match cmd
    case Read(valid) => (cell, if valid then Value(cell.version, cell.state) else Failure)
    case Apply(valid, expected, candidate, equality) =>
      if !valid then (cell, Rejection(InvalidCommand))
      else if expected != cell.version then (cell, Rejection(PreconditionFailed))
      else match equality
        case Raises => (cell, Failure)
        case Control => (cell, Interrupted)
        case Same => (cell, Success(cell.version, NoChange))
        case Different =>
          if cell.version == MAX_SAFE_VERSION then (cell, Failure)
          else (Cell(candidate, cell.version + 1), Success(cell.version + 1, Applied))
  }

  /** One operation of a history: which call, what it asked and what it was told. */
  datatype Op = Op(id: nat, cmd: Command, response: Response)

  predicate IsApplied(op: Op) { op.response.Success? && op.response.evidence.Applied? }

  ghost function CellAfter(init: Cell, log: seq<Op>): Cell {
    if log == [] then init else Meaning(CellAfter(init, log[..|log| - 1]), log[|log| - 1].cmd).0
  }

  /** A sequential history of the cell: every response is the one the cell gives at that point. */
  ghost predicate Legal(init: Cell, log: seq<Op>) {
    forall i | 0 <= i < |log| :: log[i].response == Meaning(CellAfter(init, log[..i]), log[i].cmd).1
  }

  lemma CellAfterAppend(init: Cell, log: seq<Op>, op: Op)
    ensures CellAfter(init, log + [op]) == Meaning(CellAfter(init, log), op.cmd).0
  {
    assert (log + [op])[..|log|] == log;
  }

  lemma LegalAppend(init: Cell, log: seq<Op>, op: Op)
    requires Legal(init, log) && op.response == Meaning(CellAfter(init, log), op.cmd).1
    ensures Legal(init, log + [op])
  {
    hide Meaning, CellAfter;
    var longer := log + [op];
    assert longer[..|log|] == log;
    forall i | 0 <= i < |longer|
      ensures longer[i].response == Meaning(CellAfter(init, longer[..i]), longer[i].cmd).1
    {
      if i < |log| {
        assert longer[..i] == log[..i];
      }
    }
  }

  lemma CellStep(init: Cell, log: seq<Op>, i: nat)
    requires i < |log|
    ensures CellAfter(init, log[..i + 1]) == Meaning(CellAfter(init, log[..i]), log[i].cmd).0
  {
    assert log[..i + 1][..i] == log[..i];
    hide Meaning;
  }

  function AppliedCount(log: seq<Op>): nat {
    if log == [] then 0 else AppliedCount(log[..|log| - 1]) + if IsApplied(log[|log| - 1]) then 1 else 0
  }

  lemma MeaningCounts(cell: Cell, op: Op)
    requires op.response == Meaning(cell, op.cmd).1
    ensures Meaning(cell, op.cmd).0.version == cell.version + if IsApplied(op) then 1 else 0
    ensures cell.version <= MAX_SAFE_VERSION ==> Meaning(cell, op.cmd).0.version <= MAX_SAFE_VERSION
    ensures !IsApplied(op) ==> Meaning(cell, op.cmd).0 == cell
  {
  }

  /** The version counts the applied commands and never leaves the safe range. */
  lemma {:induction false} VersionCountsApplied(init: Cell, log: seq<Op>)
    requires Legal(init, log) && init.version <= MAX_SAFE_VERSION
    ensures CellAfter(init, log).version == init.version + AppliedCount(log) <= MAX_SAFE_VERSION
    decreases |log|
  {
    if log != [] {
      var n := |log| - 1;
      LegalPrefix(init, log, n);
      MeaningCounts(CellAfter(init, log[..n]), log[n]);
      hide Meaning, IsApplied, Legal;
      VersionCountsApplied(init, log[..n]);
    }
  }

  lemma LegalPrefix(init: Cell, log: seq<Op>, n: nat)
    requires Legal(init, log) && n <= |log|
    ensures Legal(init, log[..n])
  {
    hide Meaning, CellAfter;
    forall i | 0 <= i < n
      ensures log[..n][i].response == Meaning(CellAfter(init, log[..n][..i]), log[..n][i].cmd).1
    {
      assert log[..n][..i] == log[..i];
    }
  }

  lemma {:induction false} VersionsRise(init: Cell, log: seq<Op>, i: nat, j: nat)
    requires i <= j <= |log|
    ensures CellAfter(init, log[..i]).version <= CellAfter(init, log[..j]).version
    ensures CellAfter(init, log[..i]).version == CellAfter(init, log[..j]).version ==>
            CellAfter(init, log[..i]) == CellAfter(init, log[..j])
    decreases j - i
  {
    if i < j {
      VersionsRise(init, log, i, j - 1);
      CellStep(init, log, j - 1);
      hide CellAfter;
    }
  }

  /** An applied command moved the cell from its expected version to the next one, and put its candidate there. */
  lemma AppliedMeans(init: Cell, log: seq<Op>, i: nat)
    requires Legal(init, log) && i < |log| && IsApplied(log[i])
    ensures log[i].cmd.Apply? && log[i].cmd.valid
    ensures CellAfter(init, log[..i]).version == log[i].cmd.expected
    ensures log[i].response.version == log[i].cmd.expected + 1
    ensures CellAfter(init, log[..i + 1]) == Cell(log[i].cmd.candidate, log[i].response.version)
  {
    CellStep(init, log, i);
    hide CellAfter;
  }

  /** Applied versions are consecutive: the one returned is one more than the applied commands before it. */
  lemma AppliedVersionsConsecutive(init: Cell, log: seq<Op>, i: nat)
    requires Legal(init, log) && init.version <= MAX_SAFE_VERSION && i < |log| && IsApplied(log[i])
    ensures log[i].response.version == init.version + AppliedCount(log[..i]) + 1
  {
    AppliedMeans(init, log, i);
    LegalPrefix(init, log, i);
    VersionCountsApplied(init, log[..i]);
  }

  /** Once a command has been applied, no later command that expects the same version changes anything: it is told that
      its precondition failed. */
  lemma NoSecondApply(init: Cell, log: seq<Op>, i: nat, j: nat)
    requires Legal(init, log) && i < j < |log| && IsApplied(log[i])
    requires log[j].cmd.Apply? && log[j].cmd.valid && log[j].cmd.expected == log[i].cmd.expected
    ensures log[j].response == Rejection(PreconditionFailed)
    ensures CellAfter(init, log[..j + 1]) == CellAfter(init, log[..j])
  {
    AppliedMeans(init, log, i);
    VersionsRise(init, log, i + 1, j);
    CellStep(init, log, j);
    hide CellAfter;
  }

  /** So applied versions are pairwise distinct, in the order of the history. */
  lemma AppliedVersionsDistinct(init: Cell, log: seq<Op>, i: nat, j: nat)
    requires Legal(init, log) && i < j < |log| && IsApplied(log[i]) && IsApplied(log[j])
    ensures log[i].response.version < log[j].response.version
  {
    AppliedMeans(init, log, i);
    AppliedMeans(init, log, j);
    VersionsRise(init, log, i + 1, j);
  }

  lemma VersionHasOneAuthor(init: Cell, log: seq<Op>, i: nat, j: nat)
    requires Legal(init, log) && i < |log| && j < |log| && IsApplied(log[i]) && IsApplied(log[j])
    requires log[i].response.version == log[j].response.version
    ensures i == j
  {
    hide Legal;
    if i < j {
      AppliedVersionsDistinct(init, log, i, j);
    } else if j < i {
      AppliedVersionsDistinct(init, log, j, i);
    }
  }

  /** A state at a version other than the initial one is the candidate of the one command that was told this version. */
  lemma {:induction false} StateHasAuthor(init: Cell, log: seq<Op>, n: nat) returns (i: nat)
    requires Legal(init, log) && n <= |log| && CellAfter(init, log[..n]).version != init.version
    ensures i < n && IsApplied(log[i])
    ensures CellAfter(init, log[..n]) == Cell(log[i].cmd.candidate, log[i].response.version)
    ensures forall j | 0 <= j < |log| && IsApplied(log[j]) && log[j].response.version == log[i].response.version ::
            j == i
    decreases n
  {
    assert n > 0;
    CellStep(init, log, n - 1);
    MeaningCounts(CellAfter(init, log[..n - 1]), log[n - 1]);
    hide CellAfter, Meaning;
    if IsApplied(log[n - 1]) {
      AppliedMeans(init, log, n - 1);
      i := n - 1;
    } else {
      i := StateHasAuthor(init, log, n - 1);
    }
    hide Legal;
    forall j | 0 <= j < |log| && IsApplied(log[j]) && log[j].response.version == log[i].response.version
      ensures j == i
    {
      VersionHasOneAuthor(init, log, i, j);
    }
  }

  /** A later read never shows an earlier version, and equal versions show equal states. */
  lemma ReadsNeverGoBack(init: Cell, log: seq<Op>, i: nat, j: nat)
    requires Legal(init, log) && i < j < |log| && log[i].response.Value? && log[j].response.Value?
    ensures log[i].response.version <= log[j].response.version
    ensures log[i].response.version == log[j].response.version ==> log[i].response == log[j].response
  {
    VersionsRise(init, log, i, j);
    hide CellAfter;
  }

  // ---------------------------------------------------------------- what every operation is told

  /** The version a history has reached when `i` operations have taken effect: the initial one and one for each of them
      that was applied. */
  function LeftVersion(init: Cell, log: seq<Op>, i: nat): nat
    requires i <= |log|
  {
    init.version + AppliedCount(log[..i])
  }

  /** The state then: the initial one if nothing was applied, and otherwise the candidate of the one command that was
      told this version. */
  ghost predicate LeftState(init: Cell, log: seq<Op>, i: nat, state: ControlState)
    requires i <= |log|
  {
    if AppliedCount(log[..i]) == 0 then state == init.state
    else exists j | 0 <= j < i ::
      && IsApplied(log[j]) && log[j].response.version == LeftVersion(init, log, i)
      && log[j].cmd.Apply? && log[j].cmd.candidate == state
      && forall k | 0 <= k < |log| && IsApplied(log[k]) && log[k].response.version == LeftVersion(init, log, i) ::
           k == j
  }

  lemma LeftBehind(init: Cell, log: seq<Op>, i: nat)
    requires Legal(init, log) && init.version <= MAX_SAFE_VERSION && i <= |log|
    ensures CellAfter(init, log[..i]).version == LeftVersion(init, log, i) <= MAX_SAFE_VERSION
    ensures LeftState(init, log, i, CellAfter(init, log[..i]).state)
  {
    LegalPrefix(init, log, i);
    VersionCountsApplied(init, log[..i]);
    hide Meaning, Legal, CellAfter;
    if AppliedCount(log[..i]) == 0 {
      VersionsRise(init, log, 0, i);
      assert log[..0] == [];
      assert CellAfter(init, log[..0]) == init by { EmptyHistory(init); }
    } else {
      var j := StateHasAuthor(init, log, i);
      AppliedMeans(init, log, j);
    }
  }

  lemma EmptyHistory(init: Cell)
    ensures CellAfter(init, []) == init
  {
  }

  /** What the operation at place `i` of a history is told, by the commands before it: a read the version and the state
      they left; a command whether it is invalid, late, without change, impossible or applied, in this order. */
  ghost predicate ToldExactly(init: Cell, log: seq<Op>, i: nat)
    requires i < |log|
  {
    var version := LeftVersion(init, log, i);
    var r := log[i].response;
    match log[i].cmd
    case Read(valid) =>
      if valid then r.Value? && r.version == version && LeftState(init, log, i, r.state) else r == Failure
    case Apply(valid, expected, _, equality) =>
      && (r == Rejection(InvalidCommand) <==> !valid)
      && (r == Rejection(PreconditionFailed) <==> valid && expected != version)
      && (r == Success(version, NoChange) <==> valid && expected == version && equality.Same?)
      && (r == Success(version + 1, Applied) <==>
            valid && expected == version && equality.Different? && version < 9_007_199_254_740_991)
      && (r == Failure <==>
            && valid && expected == version
            && (equality.Raises? || (equality.Different? && version == 9_007_199_254_740_991)))
      && (r == Interrupted <==> valid && expected == version && equality.Control?)
  }

  /** In a history of the cell every operation is told just that. */
  lemma EveryOperationIsTold(init: Cell, log: seq<Op>, i: nat)
    requires Legal(init, log) && init.version <= MAX_SAFE_VERSION && i < |log|
    ensures ToldExactly(init, log, i)
  {
    LeftBehind(init, log, i);
    hide CellAfter, LeftVersion, LeftState;
    assert log[i].response == Meaning(CellAfter(init, log[..i]), log[i].cmd).1;
  }
}
