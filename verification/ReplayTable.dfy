/** The replay table and the critical sections of one `execute` call.

    The functions say what each critical section does to the table; the class does it the way the
    coordinator does, by updating its `entries` in place. */
module ReplayTable {
  import opened Wrappers
  import opened ReplayCodec

  type Key = string
  type Digest = string
  type ThreadId = nat

  const MAX_CAPACITY := 4096
  const MAX_CLOCK_NS := 0x7FFF_FFFF_FFFF_FFFF
  const RETENTION_NS := 300 * 1_000_000_000

  type Nanos = n: int | 0 <= n <= MAX_CLOCK_NS

  datatype Entry =
    | InFlight(digest: Digest, owner: ThreadId)
    | Terminal(digest: Digest, bytes: Bytes, floor: Option<Nanos>, anchor: Option<Nanos>, pending: bool)

  /** What reading the caller's clock may give. */
  datatype ClockSample = Reading(n: int) | NotAnInteger | ClockRaises | ClockControl

  /** How a dispatch may end: a value, an ordinary exception or a process-control exception. */
  datatype DispatchOutcome = Gave(result: Result) | Raises | Control

  /** What the owner of a reservation is about to publish. */
  datatype Settlement = Settlement(bytes: Bytes, floor: Option<Nanos>, control: bool)

  datatype Decision = Reserve | Full | Conflict | Hit(bytes: Bytes) | Reenter | Wait

  datatype Outcome =
    | Returned(result: Result)
    | ContractError
    | ConflictError
    | CapacityError
    | ReentryError
    | ControlError
    | ReservationLost
    | Blocked            // still inside `wait` when the observed wake-ups run out

  // ---------------------------------------------------------------- pruning

  predicate Expired(e: Entry, now: Nanos) {
    e.Terminal? && !e.pending && e.anchor.Some? && now - e.anchor.value >= RETENTION_NS
  }

  function Aged(e: Entry, now: Nanos): Entry {
    if e.Terminal? && e.pending && e.floor.Some?
    then Terminal(e.digest, e.bytes, None, Some(Max(e.floor.value, now)), false)
    else e
  }

  /** The table after one prune pass: a pointwise function of the table before it. */
  function Pruned(entries: map<Key, Entry>, now: Nanos): map<Key, Entry> {
    map k | k in entries && !Expired(entries[k], now) :: Aged(entries[k], now)
  }

  ghost function Stale(items: map<Key, Entry>, now: Nanos): set<Key> {
    set k | k in items && Expired(items[k], now)
  }

  /** The table part-way through the loop: the entries still to do are as they were. */
  ghost function AgedOutside(items: map<Key, Entry>, now: Nanos, todo: set<Key>): map<Key, Entry> {
    map k | k in items :: if k in todo then items[k] else Aged(items[k], now)
  }

  lemma AgedOutsideAll(items: map<Key, Entry>, now: Nanos)
    ensures AgedOutside(items, now, items.Keys) == items
  {
  }

  lemma AgedOutsideStep(items: map<Key, Entry>, now: Nanos, todo: set<Key>, key: Key)
    requires key in todo && key in items
    ensures AgedOutside(items, now, todo - {key}) == AgedOutside(items, now, todo)[key := Aged(items[key], now)]
    ensures Aged(items[key], now) == items[key] ==>
            AgedOutside(items, now, todo - {key}) == AgedOutside(items, now, todo)
    ensures Stale(items, now) - (todo - {key}) ==
            (Stale(items, now) - todo) + (if Expired(items[key], now) then {key} else {})
  {
  }

  lemma PrunedBySteps(items: map<Key, Entry>, now: Nanos)
    ensures AgedOutside(items, now, {}) - Stale(items, now) == Pruned(items, now)
  {
  }

  lemma DeleteStep(items: map<Key, Entry>, expired: set<Key>, left: set<Key>, key: Key)
    requires key in left && left <= expired
    ensures items - (expired - (left - {key})) == items - (expired - left) - {key}
  {
    assert expired - (left - {key}) == (expired - left) + {key};
  }

  lemma PrunedSize(entries: map<Key, Entry>, now: Nanos)
    ensures |Pruned(entries, now)| <= |entries|
  {
    SubsetSize(Pruned(entries, now).Keys, entries.Keys);
  }

  lemma SubsetSize<T>(a: set<T>, b: set<T>)
    requires a <= b
    ensures |a| <= |b|
    ensures |a| == |b| ==> a == b
  {
    assert b * a == a;
    assert |b - a| == |b| - |b * a|;
  }

  /** A second pass at the same clock value changes nothing, and a pass never touches a reservation. */
  lemma PruneIsIdempotent(entries: map<Key, Entry>, now: Nanos)
    ensures Pruned(Pruned(entries, now), now) == Pruned(entries, now)
    ensures forall k | k in entries && entries[k].InFlight? ::
              k in Pruned(entries, now) && Pruned(entries, now)[k] == entries[k]
    ensures forall k | k in entries && entries[k].Terminal? && entries[k].pending && entries[k].floor.Some? ::
              k in Pruned(entries, now)
  {
    var once := Pruned(entries, now);
    forall k | k in once
      ensures !Expired(once[k], now) && Aged(once[k], now) == once[k]
    {
    }
  }

  // ---------------------------------------------------------------- one look at the table

  function Decide(entries: map<Key, Entry>, capacity: nat, key: Key, digest: Digest, thread: ThreadId): Decision {
    if key !in entries then
      if |entries| == capacity then Full else Reserve
    else if entries[key].digest != digest then Conflict
    else if entries[key].Terminal? then Hit(entries[key].bytes)
    else if entries[key].owner == thread then Reenter
    else Wait
  }

  function Looked(
      entries: map<Key, Entry>, capacity: nat, key: Key, digest: Digest,
      thread: ThreadId): map<Key, Entry>
  {
    if Decide(entries, capacity, key, digest, thread).Reserve?
    then entries[key := InFlight(digest, thread)]
    else entries
  }

  // ---------------------------------------------------------------- completion and publication

  function InitialClock(sample: ClockSample): Option<Nanos> {
    if sample.Reading? && 0 <= sample.n <= MAX_CLOCK_NS then Some(sample.n) else None
  }

  /** The bytes an owner would publish after a dispatch that did not end in process control. */
  function DispatchBytes(outcome: DispatchOutcome, fallback: Bytes, codec: Codec, requestId: string): Bytes {
    if outcome.Gave? && NormalizeTerminal(outcome.result, codec, requestId).Some?
    then NormalizeTerminal(outcome.result, codec, requestId).value
    else fallback
  }

  function Settle(initial: Nanos, bytes: Bytes, fallback: Bytes, sample: ClockSample): Settlement {
    if sample.Reading? && initial <= sample.n <= MAX_CLOCK_NS
    then Settlement(bytes, Some(sample.n), false)
    else Settlement(fallback, None, sample.ClockControl?)
  }

  function TerminalOf(digest: Digest, st: Settlement): Entry {
    Terminal(digest, st.bytes, st.floor, None, st.floor.Some?)
  }

  predicate HoldsReservation(entries: map<Key, Entry>, key: Key, digest: Digest, thread: ThreadId) {
    key in entries && entries[key] == InFlight(digest, thread)
  }

  /** The three shapes a stored terminal can have. */
  predicate PendingTerminal(e: Entry) { e.Terminal? && e.pending && e.floor.Some? && e.anchor.None? }
  predicate AnchoredTerminal(e: Entry) { e.Terminal? && !e.pending && e.floor.None? && e.anchor.Some? }
  predicate UnprunableTerminal(e: Entry) { e.Terminal? && !e.pending && e.floor.None? && e.anchor.None? }

  predicate TerminalShape(e: Entry) {
    PendingTerminal(e) || AnchoredTerminal(e) || UnprunableTerminal(e)
  }

  // ---------------------------------------------------------------- the coordinator

  class ReplayCoordinator {
    const capacity: nat
    var entries: map<Key, Entry>

    ghost predicate Valid()
      reads this
    {
      1 <= capacity <= MAX_CAPACITY && |entries| <= capacity
    }

    constructor (capacity: nat)
      requires 1 <= capacity <= MAX_CAPACITY
      ensures Valid() && this.capacity == capacity && entries == map[]
    {
      this.capacity := capacity;
      entries := map[];
    }

    /** A capacity out of range is refused; null stands for the contract error. */
    static method Create(capacity: int) returns (r: ReplayCoordinator?)
      ensures r == null <==> !(1 <= capacity <= 4096)
      ensures r != null ==> fresh(r) && r.Valid() && r.capacity == capacity && r.entries == map[]
    {
      if 1 <= capacity <= MAX_CAPACITY {
        r := new ReplayCoordinator(capacity);
      } else {
        r := null;
      }
    }

    /** Walks a copy of the items in an arbitrary order, re-anchors in place and deletes at the end. */
    method Prune(now: Nanos)
      modifies this`entries
      ensures entries == Pruned(old(entries), now)
    {
      var items := entries;
      var todo := items.Keys;
      var expired: set<Key> := {};
      AgedOutsideAll(items, now);
      while todo != {}
        invariant todo <= items.Keys
        invariant entries == AgedOutside(items, now, todo)
        invariant expired == Stale(items, now) - todo
        decreases |todo|
      {
        var key :| key in todo;
        var entry := items[key];
        AgedOutsideStep(items, now, todo, key);
        todo := todo - {key};
        if !entry.Terminal? {
          continue;
        }
        if entry.pending {
          if entry.floor.None? {
            continue;
          }
          entries := entries[key :=
              Terminal(entry.digest, entry.bytes, None, Some(Max(entry.floor.value, now)), false)];
          continue;
        }
        if entry.anchor.Some? && now >= entry.anchor.value && now - entry.anchor.value >= RETENTION_NS {
          expired := expired + {key};
        }
      }
      PrunedBySteps(items, now);
      DeleteAll(expired);
    }

    /** The deferred deletes at the end of a prune pass. */
    method DeleteAll(expired: set<Key>)
      modifies this`entries
      ensures entries == old(entries) - expired
    {
      var left := expired;
      while left != {}
        invariant left <= expired
        invariant entries == old(entries) - (expired - left)
        decreases |left|
      {
        var key :| key in left;
        DeleteStep(old(entries), expired, left, key);
        left := left - {key};
        entries := entries - {key};
      }
      assert expired - {} == expired;
    }

    /** One turn of the `while True` loop of `execute`, run under the lock. */
    method Look(key: Key, digest: Digest, thread: ThreadId) returns (d: Decision)
      requires Valid()
      modifies this`entries
      ensures Valid()
      ensures d == Decide(old(entries), capacity, key, digest, thread)
      ensures entries == Looked(old(entries), capacity, key, digest, thread)
    {
      if key !in entries {
        if |entries| == capacity {
          return Full;
        }
        entries := entries[key := InFlight(digest, thread)];
        return Reserve;
      }
      var entry := entries[key];
      if entry.digest != digest {
        return Conflict;
      }
      if entry.Terminal? {
        return Hit(entry.bytes);
      }
      if entry.owner == thread {
        return Reenter;
      }
      return Wait;
    }

    /** The publishing critical section; false is the "reservation was lost" branch. */
    method Publish(key: Key, digest: Digest, thread: ThreadId, st: Settlement) returns (published: bool)
      requires Valid()
      modifies this`entries
      ensures Valid()
      ensures published <==> key in old(entries) && old(entries)[key] == InFlight(digest, thread)
      ensures entries == if published then old(entries)[key := TerminalOf(digest, st)] else old(entries)
    {
      if key !in entries {
        return false;
      }
      var entry := entries[key];
      if !entry.InFlight? || entry.digest != digest || entry.owner != thread {
        return false;
      }
      entries := entries[key := Terminal(digest, st.bytes, st.floor, None, st.floor.Some?)];
      return true;
    }

    /** The first `with` block of `execute`: prune once, then look until the table lets the call proceed.
        `wakes` are the tables that other threads leave behind, found after each return from `wait`. */
    method TakeTurn(key: Key, digest: Digest, thread: ThreadId, initial: Nanos, wakes: seq<map<Key, Entry>>)
      returns (d: Decision)
      requires Valid()
      requires forall w | w in wakes :: |w| <= capacity
      modifies this`entries
      ensures Valid()
      ensures var seen := [Pruned(old(entries), initial)] + wakes;
              var turn := FirstTurn(seen, capacity, key, digest, thread);
              if turn == |seen| then d.Wait? && entries == seen[|seen| - 1]
              else d == Decide(seen[turn], capacity, key, digest, thread) &&
                   entries == Looked(seen[turn], capacity, key, digest, thread)
    {
      ghost var seen := [Pruned(entries, initial)] + wakes;
      PrunedSize(entries, initial);
      Prune(initial);
      FirstTurnOfNone(seen, capacity, key, digest, thread);
      hide Pruned, Decide, Looked, FirstTurn;
      var i := 0;
      while true
        invariant 0 <= i <= |wakes| && Valid()
        invariant entries == seen[i]
        invariant FirstTurn(seen, capacity, key, digest, thread) ==
                  i + FirstTurn(seen[i..], capacity, key, digest, thread)
        decreases |wakes| - i
      {
        FirstTurnFrom(seen, i, capacity, key, digest, thread);
        d := Look(key, digest, thread);
        if !d.Wait? {
          break;
        }
        LookedUnchanged(seen[i], capacity, key, digest, thread);
        if i == |wakes| {
          return;
        }
        entries := wakes[i];
        i := i + 1;
      }
    }

    /** The whole of `execute`.  Everything other threads may do is a parameter: `wakes` as above, and
        `meanwhile`, the table found when the result is published. */
    method Execute(
        key: Key, digest: Digest, requestId: string, codec: Codec, thread: ThreadId,
        clock: ClockSample, wakes: seq<map<Key, Entry>>,
        dispatch: DispatchOutcome, completion: ClockSample, meanwhile: map<Key, Entry>)
      returns (outcome: Outcome, dispatched: bool)
      requires Valid()
      requires forall w | w in wakes :: |w| <= capacity
      requires |meanwhile| <= capacity
      modifies this`entries
      ensures Valid()
      ensures FallbackBytes(codec, requestId).None? || (InitialClock(clock).None? && !clock.ClockControl?) ==>
                outcome == ContractError && !dispatched && entries == old(entries)
      ensures FallbackBytes(codec, requestId).Some? && clock.ClockControl? ==>
                outcome == ControlError && !dispatched && entries == old(entries)
      ensures FallbackBytes(codec, requestId).Some? && InitialClock(clock).Some? ==>
                var seen := [Pruned(old(entries), InitialClock(clock).value)] + wakes;
                var turn := FirstTurn(seen, capacity, key, digest, thread);
                var fallback := FallbackBytes(codec, requestId).value;
                if turn == |seen| then outcome == Blocked && !dispatched && entries == seen[|seen| - 1] else
                match Decide(seen[turn], capacity, key, digest, thread)
                case Full => outcome == CapacityError && !dispatched && entries == seen[turn]
                case Conflict => outcome == ConflictError && !dispatched && entries == seen[turn]
                case Reenter => outcome == ReentryError && !dispatched && entries == seen[turn]
                case Hit(bytes) =>
                  && outcome == Finish(DecodeOrFallback(bytes, fallback, codec, requestId))
                  && !dispatched && entries == seen[turn]
                case _ =>
                  var st := Settled(InitialClock(clock).value, dispatch, completion, fallback, codec, requestId);
                  && dispatched
                  && if HoldsReservation(meanwhile, key, digest, thread)
                     then
                       && entries == meanwhile[key := TerminalOf(digest, st)]
                       && outcome == (if st.control then ControlError
                                      else Finish(DecodeOrFallback(st.bytes, fallback, codec, requestId)))
                     else entries == meanwhile && outcome == ReservationLost
    {
      hide Pruned, Decide, Looked, DispatchBytes, Settle, DecodeOrFallback, FallbackBytes, TerminalOf;
      dispatched := false;
      var prepared := FallbackBytes(codec, requestId);
      if prepared.None? {
        return ContractError, false;
      }
      var fallback := prepared.value;
      var read := InitialClock(clock);
      if read.None? {
        return if clock.ClockControl? then ControlError else ContractError, false;
      }
      var initial := read.value;

      ghost var seen := [Pruned(entries, initial)] + wakes;
      ghost var turn := FirstTurn(seen, capacity, key, digest, thread);
      var d := TakeTurn(key, digest, thread, initial, wakes);
      hide FirstTurn, InitialClock;
      if turn < |seen| {
        LookedUnchanged(seen[turn], capacity, key, digest, thread);
      }
      match d {
        case Wait => return Blocked, false;
        case Full => return CapacityError, false;
        case Conflict => return ConflictError, false;
        case Reenter => return ReentryError, false;
        case Hit(bytes) =>
          outcome := Finish(DecodeOrFallback(bytes, fallback, codec, requestId));
          return;
        case Reserve =>
      }

      dispatched := true;
      var st := Settlement(fallback, None, true);
      if !dispatch.Control? {
        st := Settle(initial, DispatchBytes(dispatch, fallback, codec, requestId), fallback, completion);
      }
      entries := meanwhile;
      var published := Publish(key, digest, thread, st);
      if !published {
        return ReservationLost, true;
      }
      outcome := if st.control then ControlError else Finish(DecodeOrFallback(st.bytes, fallback, codec, requestId));
    }
  }

  lemma LookedUnchanged(entries: map<Key, Entry>, capacity: nat, key: Key, digest: Digest, thread: ThreadId)
    ensures !Decide(entries, capacity, key, digest, thread).Reserve? ==>
            Looked(entries, capacity, key, digest, thread) == entries
  {
  }

  function Finish(r: Option<Result>): Outcome {
    if r.Some? then Returned(r.value) else ContractError
  }

  function Settled(
      initial: Nanos, dispatch: DispatchOutcome, completion: ClockSample, fallback: Bytes,
      codec: Codec, requestId: string): Settlement
  {
    if dispatch.Control? then Settlement(fallback, None, true)
    else Settle(initial, DispatchBytes(dispatch, fallback, codec, requestId), fallback, completion)
  }

  /** The index of the first table that lets the call proceed, or the number of tables if none does. */
  function FirstTurn(seen: seq<map<Key, Entry>>, capacity: nat, key: Key, digest: Digest, thread: ThreadId): (n: nat)
    ensures n <= |seen|
    ensures n < |seen| ==> !Decide(seen[n], capacity, key, digest, thread).Wait?
    ensures forall j | 0 <= j < n :: Decide(seen[j], capacity, key, digest, thread).Wait?
  {
    if seen == [] || !Decide(seen[0], capacity, key, digest, thread).Wait? then 0
    else 1 + FirstTurn(seen[1..], capacity, key, digest, thread)
  }

  /** The turns from turn `i` on. */
  lemma FirstTurnFrom(
      seen: seq<map<Key, Entry>>, i: nat, capacity: nat, key: Key, digest: Digest, thread: ThreadId)
    requires i < |seen|
    ensures FirstTurn(seen[i..], capacity, key, digest, thread) ==
            if !Decide(seen[i], capacity, key, digest, thread).Wait? then 0
            else 1 + FirstTurn(seen[i + 1..], capacity, key, digest, thread)
  {
    assert seen[i..][0] == seen[i] && seen[i..][1..] == seen[i + 1..];
    hide Decide;
  }

  lemma FirstTurnOfNone(seen: seq<map<Key, Entry>>, capacity: nat, key: Key, digest: Digest, thread: ThreadId)
    ensures seen[0..] == seen && FirstTurn(seen[|seen|..], capacity, key, digest, thread) == 0
  {
  }
}
