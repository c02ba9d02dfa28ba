/** The atomic variable itself: one field holding an immutable snapshot object, replaced under a lock and
    revalidated by identity. */
module AtomicVariable {
  import opened ReplayCodec
  import opened VariableCell

  class Snapshot {
    const state: ControlState
    const version: nat

    constructor (state: ControlState, version: nat)
      ensures this.state == state && this.version == version
    {
      this.state := state;
      this.version := version;
    }

    function AsCell(): Cell { Cell(state, version) }
  }

  class Variable {
    var snapshot: Snapshot

    ghost predicate Valid()
      reads this
    {
      snapshot.version <= MAX_SAFE_VERSION
    }

    constructor (state: ControlState, version: nat)
      requires version <= MAX_SAFE_VERSION
      ensures Valid() && snapshot.AsCell() == Cell(state, version) && fresh(snapshot)
    {
      snapshot := new Snapshot(state, version);
    }

    /** An initial version out of range is refused; null stands for the value error. */
    static method Create(state: ControlState, version: int) returns (r: Variable?)
      ensures r == null <==> !(0 <= version <= 9_007_199_254_740_991)
      ensures r != null ==> fresh(r) && r.Valid() && r.snapshot.AsCell() == Cell(state, version)
    {
      if version < 0 || version > MAX_SAFE_VERSION {
        return null;
      }
      r := new Variable(state, version);
    }

    method Read(cmd: Command) returns (r: Response)
      requires cmd.Read?
      ensures r == if cmd.valid then Value(snapshot.version, snapshot.state) else Failure
      ensures r == Meaning(snapshot.AsCell(), cmd).1
    {
      if !cmd.valid {
        return Failure;
      }
      var seen := snapshot;
      return Value(seen.version, seen.state);
    }

    /** The last critical section: publish only if nobody has published since the capture. */
    method Revalidate(captured: Snapshot, next: Snapshot?) returns (changed: bool)
      requires Valid() && (next != null ==> next.version <= MAX_SAFE_VERSION)
      modifies this`snapshot
      ensures Valid() && (changed <==> old(snapshot) != captured)
      ensures snapshot == if !changed && next != null then next else old(snapshot)
    {
      changed := snapshot != captured;
      if !changed && next != null {
        snapshot := next;
      }
    }

    /** Snapshots that are published one after another, each with a later version than the one before. */
    ghost predicate Successive(from: Snapshot, published: seq<Snapshot>) {
      && (forall i | 0 <= i < |published| :: from.version < published[i].version <= MAX_SAFE_VERSION)
      && (forall i, j | 0 <= i < j < |published| :: published[i].version < published[j].version)
    }

    /** `meanwhile` are the snapshots that other threads publish between the capture and the revalidation, in order.
        Left alone, `Apply` is the cell's own step; overtaken, it is the cell's step on the newest snapshot. */
    method Apply(cmd: Command, meanwhile: seq<Snapshot>) returns (r: Response)
      requires Valid() && cmd.Apply? && Successive(snapshot, meanwhile)
      modifies this`snapshot
      ensures Valid()
      ensures meanwhile == [] ==>
                (snapshot.AsCell(), r) == Meaning(old(snapshot).AsCell(), cmd)
                && (snapshot == old(snapshot) || fresh(snapshot))
      ensures meanwhile != [] ==> snapshot == meanwhile[|meanwhile| - 1]
      ensures meanwhile != [] && !(cmd.valid && cmd.expected == old(snapshot).version) ==>
                r == Meaning(old(snapshot).AsCell(), cmd).1
      ensures meanwhile != [] && cmd.valid && cmd.expected == old(snapshot).version ==>
                r == match cmd.equality
                     case Raises => Failure
                     case Control => Interrupted
                     case _ => Meaning(meanwhile[|meanwhile| - 1].AsCell(), cmd).1
    {
      if !cmd.valid {
        Overtaken(meanwhile);
        return Rejection(InvalidCommand);
      }
      var captured := snapshot;
      var stale := cmd.expected != captured.version;
      Overtaken(meanwhile);
      if stale {
        return Rejection(PreconditionFailed);
      }
      if cmd.equality.Raises? {
        return Failure;
      }
      if cmd.equality.Control? {
        return Interrupted;
      }
      var next: Snapshot? := null;
      if cmd.equality.Same? {
        r := Success(captured.version, NoChange);
      } else if captured.version == MAX_SAFE_VERSION {
        r := Failure;
      } else {
        var made := new Snapshot(cmd.candidate, captured.version + 1);
        next := made;
        r := Success(made.version, Applied);
      }
      var changed := Revalidate(captured, next);
      if changed {
        return Rejection(PreconditionFailed);
      }
    }

    /** What the publications of other threads do to the variable while this one is outside the lock. */
    method Overtaken(meanwhile: seq<Snapshot>)
      requires Valid() && forall i | 0 <= i < |meanwhile| :: meanwhile[i].version <= MAX_SAFE_VERSION
      modifies this`snapshot
      ensures Valid() && snapshot == if meanwhile == [] then old(snapshot) else meanwhile[|meanwhile| - 1]
    {
      for i := 0 to |meanwhile|
        invariant Valid() && snapshot == if i == 0 then old(snapshot) else meanwhile[i - 1]
      {
        snapshot := meanwhile[i];
      }
    }
  }
}
