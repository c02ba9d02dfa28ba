/** Exactly which nested calls can deadlock.  A thread that dispatches holds a reservation for every call under its top
    one, and re-entry is noticed on one thread only; so threads can wait for each other in a ring. */
module ReplayDeadlock {
  import opened Wrappers
  import opened ReplayTable
  import opened ReplayProtocol
  import opened ReplayInvariant
  import opened ReplayRefinement
  import opened ReplayHistory
  import opened ReplayProgress
  import opened ReplaySchedules

  function Succ(i: nat, n: nat): nat { if i + 1 < n then i + 1 else 0 }

  // ---------------------------------------------------------------- which calls can deadlock

  /** Calls of one thread, each made by the dispatch of the one before it; all but the last would hold their keys. */
  ghost predicate Chain(calls: seq<Call>, chain: seq<CallId>) {
    && |chain| >= 2
    && (forall j | 0 <= j < |chain| :: chain[j] < |calls|)
    && (forall j | 0 <= j < |chain| :: Fallback(calls[chain[j]]).Some?)
    && (forall j | 0 <= j < |chain| :: calls[chain[j]].thread == ThreadOf(calls, chain))
    && calls[chain[0]].parent == None
    && (forall j | 1 <= j < |chain| :: calls[chain[j]].parent == Some(chain[j - 1]))
  }

  function ThreadOf(calls: seq<Call>, chain: seq<CallId>): ThreadId {
    if chain != [] && chain[0] < |calls| then calls[chain[0]].thread else 0
  }

  predicate SameWork(a: Call, b: Call) { a.key == b.key && a.digest == b.digest }

  /** The last call of chain `a` asks for what chain `b` holds. */
  ghost predicate WaitsFor(calls: seq<Call>, a: seq<CallId>, b: seq<CallId>)
    requires Chain(calls, a) && Chain(calls, b)
  {
    exists j | 0 <= j < |b| - 1 :: SameWork(calls[a[|a| - 1]], calls[b[j]])
  }

  ghost predicate Chains(calls: seq<Call>, chains: seq<seq<CallId>>) {
    forall i | 0 <= i < |chains| :: Chain(calls, chains[i])
  }

  /** The keys that all the chains hold. */
  ghost function HolderKeys(calls: seq<Call>, chains: seq<seq<CallId>>): set<Key>
    requires Chains(calls, chains)
  {
    set i, j | 0 <= i < |chains| && 0 <= j < |chains[i]| - 1 :: calls[chains[i][j]].key
  }

  /** No two of the calls that hold a key hold the same one. */
  ghost predicate DistinctHolders(calls: seq<Call>, chains: seq<seq<CallId>>)
    requires Chains(calls, chains)
  {
    forall i, j, p, q |
      && 0 <= i < |chains| && 0 <= j < |chains[i]| - 1 && 0 <= p < |chains| && 0 <= q < |chains[p]| - 1
      && calls[chains[i][j]].key == calls[chains[p][q]].key :: i == p && j == q
  }

  ghost predicate DistinctThreads(calls: seq<Call>, chains: seq<seq<CallId>>) {
    forall i, j | 0 <= i < j < |chains| :: ThreadOf(calls, chains[i]) != ThreadOf(calls, chains[j])
  }

  /** Each chain waits for the next, and the last for the first. */
  ghost predicate InRing(calls: seq<Call>, chains: seq<seq<CallId>>)
    requires Chains(calls, chains)
  {
    forall i | 0 <= i < |chains| :: WaitsFor(calls, chains[i], chains[Succ(i, |chains|)])
  }

  /** Two or more threads in a ring, each holding what the one before it asks for, with room for all they hold. */
  ghost predicate HoldAndWait(calls: seq<Call>, capacity: nat, chains: seq<seq<CallId>>) {
    && |chains| >= 2 && Chains(calls, chains)
    && DistinctThreads(calls, chains) && DistinctHolders(calls, chains)
    && |HolderKeys(calls, chains)| <= capacity
    && InRing(calls, chains)
  }

  /** No call can take a step, and some call is running. */
  ghost predicate Deadlocked(s: State) {
    Stuck(s) && exists c | 0 <= c < |s.phases| :: Active(s.phases[c])
  }

  ghost predicate CanDeadlock(s: State) {
    exists ls :: Runs(s, ls) && Deadlocked(After(s, ls))
  }

  lemma {:induction false} ChainDistinct(calls: seq<Call>, chain: seq<CallId>, i: nat, j: nat)
    requires Chain(calls, chain) && i < j < |chain|
    ensures chain[i] != chain[j]
    decreases i
  {
    hide Fallback;
    assert calls[chain[j]].parent == Some(chain[j - 1]);
    if i > 0 {
      assert calls[chain[i]].parent == Some(chain[i - 1]);
      ChainDistinct(calls, chain, i - 1, j - 1);
    }
  }

  lemma ChainsApart(calls: seq<Call>, chains: seq<seq<CallId>>, i: nat, j: nat, p: nat, q: nat)
    requires Chains(calls, chains) && DistinctThreads(calls, chains) && i < |chains| && p < |chains| && i != p
    requires j < |chains[i]| && q < |chains[p]|
    ensures ThreadOf(calls, chains[i]) != ThreadOf(calls, chains[p]) && chains[i][j] != chains[p][q]
  {
    hide Fallback;
    assert Chain(calls, chains[i]) && Chain(calls, chains[p]);
  }

  lemma ChainsInRange(calls: seq<Call>, chains: seq<seq<CallId>>)
    requires Chains(calls, chains)
    ensures forall i, j | 0 <= i < |chains| && 0 <= j < |chains[i]| :: chains[i][j] < |calls|
  {
    hide Fallback;
    forall i | 0 <= i < |chains|
      ensures forall j | 0 <= j < |chains[i]| :: chains[i][j] < |calls|
    {
      assert Chain(calls, chains[i]);
    }
  }

  // ---------------------------------------------------------------- such calls deadlock in some run

  ghost predicate AllInFlight(entries: map<Key, Entry>) {
    forall k | k in entries :: entries[k].InFlight?
  }

  lemma NothingToPrune(entries: map<Key, Entry>, now: Nanos)
    requires AllInFlight(entries)
    ensures Pruned(entries, now) == entries
  {
  }

  /** Where call `j` of a chain is when the first `height` calls of the chain have been made. */
  predicate FrameAt(p: Phase, chain: seq<CallId>, j: nat, height: nat) {
    if j >= height then p.Idle? else if j + 1 < |chain| then p.Dispatching? else p.Waiting?
  }

  ghost predicate ChainAt(s: State, chain: seq<CallId>, height: nat)
    requires Chain(s.calls, chain) && |s.phases| == |s.calls|
  {
    && height <= |chain| && Stack(s, ThreadOf(s.calls, chain)) == chain[..height]
    && forall j | 0 <= j < |chain| :: FrameAt(s.phases[chain[j]], chain, j, height)
  }

  /** Key `k` is the key of a call that has been made and is not the last of its chain. */
  ghost predicate HeldBy(calls: seq<Call>, chains: seq<seq<CallId>>, h: seq<nat>, k: Key)
    requires Chains(calls, chains) && |h| == |chains|
  {
    exists i, j | 0 <= i < |chains| && 0 <= j < |chains[i]| - 1 :: j < h[i] && calls[chains[i][j]].key == k
  }

  ghost predicate OnlyHeld(s: State, chains: seq<seq<CallId>>, h: seq<nat>)
    requires Chains(s.calls, chains) && |h| == |chains|
  {
    forall k | k in s.entries :: HeldBy(s.calls, chains, h, k)
  }

  lemma HeldGrows(calls: seq<Call>, chains: seq<seq<CallId>>, h: seq<nat>, i: nat, k: Key)
    requires Chains(calls, chains) && |h| == |chains| && i < |chains| && HeldBy(calls, chains, h, k)
    ensures HeldBy(calls, chains, h[i := h[i] + 1], k)
  {
    ChainsInRange(calls, chains);
    hide Chain;
    var p, q :| 0 <= p < |chains| && 0 <= q < |chains[p]| - 1 && q < h[p] && calls[chains[p][q]].key == k;
    assert q < h[i := h[i] + 1][p];
  }

  lemma HeldNow(calls: seq<Call>, chains: seq<seq<CallId>>, h: seq<nat>, i: nat)
    requires Chains(calls, chains) && |h| == |chains| && i < |chains| && h[i] < |chains[i]| - 1
    ensures chains[i][h[i]] < |calls| && HeldBy(calls, chains, h[i := h[i] + 1], calls[chains[i][h[i]]].key)
  {
    ChainsInRange(calls, chains);
    hide Chain;
    assert h[i] < h[i := h[i] + 1][i];
  }

  /** What the call about to be made would hold is not held yet, and is among what all the chains hold. */
  lemma NotHeldYet(calls: seq<Call>, chains: seq<seq<CallId>>, h: seq<nat>, i: nat)
    requires Chains(calls, chains) && DistinctHolders(calls, chains) && |h| == |chains| && i < |chains|
    requires h[i] < |chains[i]| - 1
    ensures chains[i][h[i]] < |calls|
    ensures !HeldBy(calls, chains, h, calls[chains[i][h[i]]].key)
    ensures calls[chains[i][h[i]]].key in HolderKeys(calls, chains)
  {
    ChainsInRange(calls, chains);
    hide Chain;
  }

  lemma HeldIsAmongAll(calls: seq<Call>, chains: seq<seq<CallId>>, h: seq<nat>, k: Key)
    requires Chains(calls, chains) && |h| == |chains| && HeldBy(calls, chains, h, k)
    ensures k in HolderKeys(calls, chains)
  {
    ChainsInRange(calls, chains);
    hide Chain;
  }

  /** The chains have been climbed up to the heights `h`, and nothing else has happened. */
  ghost predicate Climbed(s: State, chains: seq<seq<CallId>>, h: seq<nat>) {
    && Inv(s) && |s.phases| == |s.calls| && AllInFlight(s.entries)
    && |h| == |chains| && Chains(s.calls, chains)
    && (forall i | 0 <= i < |chains| :: ChainAt(s, chains[i], h[i]))
    && OnlyHeld(s, chains, h)
  }

  lemma MayClimb(s: State, chain: seq<CallId>, height: nat)
    requires Chain(s.calls, chain) && |s.phases| == |s.calls| && ChainAt(s, chain, height) && height < |chain|
    ensures MayBegin(s, chain[height])
  {
    hide Fallback;
    var c := chain[height];
    assert s.calls[c].thread == ThreadOf(s.calls, chain) && FrameAt(s.phases[c], chain, height, height);
    if height > 0 {
      assert s.calls[chain[height]].parent == Some(chain[height - 1]);
      assert chain[..height][height - 1] == chain[height - 1];
      assert FrameAt(s.phases[chain[height - 1]], chain, height - 1, height);
    }
  }

  lemma PushedChain(s: State, t: State, chain: seq<CallId>, height: nat, p: Phase)
    requires Chain(s.calls, chain) && |s.phases| == |s.calls| && ChainAt(s, chain, height) && height < |chain|
    requires Pushed(s, t, chain[height], p) && (if height + 1 < |chain| then p.Dispatching? else p.Waiting?)
    ensures |t.phases| == |t.calls| && ChainAt(t, chain, height + 1)
  {
    hide Fallback;
    forall j | 0 <= j < |chain|
      ensures FrameAt(t.phases[chain[j]], chain, j, height + 1)
    {
      assert FrameAt(s.phases[chain[j]], chain, j, height);
      if j < height {
        ChainDistinct(s.calls, chain, j, height);
      } else if height < j {
        ChainDistinct(s.calls, chain, height, j);
      }
    }
    assert chain[..height] + [chain[height]] == chain[..height + 1];
  }

  lemma PushedElsewhere(
      s: State, t: State, chains: seq<seq<CallId>>, h: seq<nat>, i: nat, p: Phase, q: nat)
    requires Chains(s.calls, chains) && DistinctThreads(s.calls, chains) && |h| == |chains|
    requires |s.phases| == |s.calls| && i < |chains| && q < |chains| && i != q
    requires h[i] < |chains[i]| && Pushed(s, t, chains[i][h[i]], p) && ChainAt(s, chains[q], h[q])
    ensures |t.phases| == |t.calls| && ChainAt(t, chains[q], h[q])
  {
    hide Fallback;
    forall j | 0 <= j < |chains[q]|
      ensures FrameAt(t.phases[chains[q][j]], chains[q], j, h[q])
    {
      ChainsApart(s.calls, chains, i, h[i], q, j);
      assert FrameAt(s.phases[chains[q][j]], chains[q], j, h[q]);
    }
    ChainsApart(s.calls, chains, i, h[i], q, 0);
  }

  lemma PushedChains(s: State, t: State, chains: seq<seq<CallId>>, h: seq<nat>, i: nat, p: Phase)
    requires Chains(s.calls, chains) && DistinctThreads(s.calls, chains) && |h| == |chains|
    requires |s.phases| == |s.calls| && i < |chains| && h[i] < |chains[i]| && Pushed(s, t, chains[i][h[i]], p)
    requires forall q | 0 <= q < |chains| :: ChainAt(s, chains[q], h[q])
    requires if h[i] + 1 < |chains[i]| then p.Dispatching? else p.Waiting?
    ensures t.calls == s.calls && |t.phases| == |t.calls| && Chains(t.calls, chains)
    ensures forall q | 0 <= q < |chains| :: ChainAt(t, chains[q], h[i := h[i] + 1][q])
  {
    ChainsInRange(s.calls, chains);
    assert t.calls == s.calls && |t.phases| == |t.calls|;
    hide Chain, ChainAt, DistinctThreads, FrameAt, Pushed;
    forall q | 0 <= q < |chains|
      ensures ChainAt(t, chains[q], h[i := h[i] + 1][q])
    {
      if q == i {
        PushedChain(s, t, chains[i], h[i], p);
      } else {
        PushedElsewhere(s, t, chains, h, i, p, q);
      }
    }
  }

  /** A call that would hold its key finds it free, and room for it. */
  lemma KeyIsFree(s: State, chains: seq<seq<CallId>>, h: seq<nat>, i: nat)
    requires HoldAndWait(s.calls, s.capacity, chains) && Climbed(s, chains, h) && i < |chains|
    requires h[i] < |chains[i]| - 1
    ensures chains[i][h[i]] < |s.calls|
    ensures var call := s.calls[chains[i][h[i]]];
            Decide(s.entries, s.capacity, call.key, call.digest, call.thread).Reserve?
  {
    hide Chains, ChainAt, Inv, AllInFlight, WaitsFor, DistinctThreads, DistinctHolders, HolderKeys, HeldBy;
    NotHeldYet(s.calls, chains, h, i);
    var key := s.calls[chains[i][h[i]]].key;
    var all := HolderKeys(s.calls, chains);
    forall k | k in s.entries
      ensures k in all
    {
      HeldIsAmongAll(s.calls, chains, h, k);
    }
    assert key !in s.entries;
    assert s.entries.Keys + {key} <= all;
    SubsetSize(s.entries.Keys + {key}, all);
  }

  lemma ReadyToClimb(s: State, chains: seq<seq<CallId>>, h: seq<nat>, i: nat)
    requires Climbed(s, chains, h) && i < |chains| && h[i] < |chains[i]|
    ensures var c := chains[i][h[i]];
            c < |s.calls| == |s.phases| && Fallback(s.calls[c]).Some? && MayBegin(s, c)
    ensures Pruned(s.entries, 0) == s.entries
  {
    hide Inv, OnlyHeld;
    assert Chain(s.calls, chains[i]) && ChainAt(s, chains[i], h[i]);
    MayClimb(s, chains[i], h[i]);
    NothingToPrune(s.entries, 0);
    hide AllInFlight, Pruned, MayBegin, Fallback, FrameAt;
  }

  lemma ClimbedParts(s: State, chains: seq<seq<CallId>>, h: seq<nat>)
    requires Climbed(s, chains, h)
    ensures Inv(s) && |s.phases| == |s.calls| && AllInFlight(s.entries) && |h| == |chains| && Chains(s.calls, chains)
    ensures (forall i | 0 <= i < |chains| :: ChainAt(s, chains[i], h[i])) && OnlyHeld(s, chains, h)
  {
    hide Inv, OnlyHeld, AllInFlight, ChainAt, Chain;
  }

  lemma RingParts(calls: seq<Call>, capacity: nat, chains: seq<seq<CallId>>)
    requires HoldAndWait(calls, capacity, chains)
    ensures |chains| >= 2 && Chains(calls, chains) && DistinctThreads(calls, chains)
  {
    hide Chains, DistinctThreads, DistinctHolders;
  }

  lemma ClimbHolder(s: State, chains: seq<seq<CallId>>, h: seq<nat>, i: nat)
    requires HoldAndWait(s.calls, s.capacity, chains) && Climbed(s, chains, h) && |h| == |chains| && i < |chains|
    requires h[i] < |chains[i]| - 1
    ensures var ls := CallAndLook(chains[i][h[i]], 0);
            && Runs(s, ls) && After(s, ls).calls == s.calls && After(s, ls).capacity == s.capacity
            && Climbed(After(s, ls), chains, h[i := h[i] + 1])
  {
    hide *;
    var c := chains[i][h[i]];
    ReadyToClimb(s, chains, h, i);
    KeyIsFree(s, chains, h, i);
    ClimbedParts(s, chains, h);
    RingParts(s.calls, s.capacity, chains);
    ZeroIsNanos();
    CallReserves(s, c, 0);
    RunInv(s, CallAndLook(c, 0));
    var t := After(s, CallAndLook(c, 0));
    PushedChains(s, t, chains, h, i, Dispatching(0));
    StillHeld(s, t, chains, h, i);
    JoinClimbed(t, chains, h[i := h[i] + 1]);
  }

  lemma ZeroIsNanos()
    ensures 0 <= MAX_CLOCK_NS
  {
  }

  lemma JoinClimbed(s: State, chains: seq<seq<CallId>>, h: seq<nat>)
    requires Inv(s) && |s.phases| == |s.calls| && AllInFlight(s.entries) && |h| == |chains| && Chains(s.calls, chains)
    requires (forall i | 0 <= i < |chains| :: ChainAt(s, chains[i], h[i])) && OnlyHeld(s, chains, h)
    ensures Climbed(s, chains, h)
  {
    hide Inv, OnlyHeld, AllInFlight, ChainAt, Chain;
  }

  lemma StillHeld(s: State, t: State, chains: seq<seq<CallId>>, h: seq<nat>, i: nat)
    requires Chains(s.calls, chains) && |h| == |chains| && OnlyHeld(s, chains, h) && AllInFlight(s.entries)
    requires i < |chains| && h[i] < |chains[i]| - 1 && t.calls == s.calls && chains[i][h[i]] < |s.calls|
    requires var call := s.calls[chains[i][h[i]]];
             t.entries == s.entries[call.key := InFlight(call.digest, call.thread)]
    ensures OnlyHeld(t, chains, h[i := h[i] + 1]) && AllInFlight(t.entries)
  {
    hide Chains, HeldBy;
    HeldNow(s.calls, chains, h, i);
    forall k | k in t.entries
      ensures HeldBy(t.calls, chains, h[i := h[i] + 1], k)
    {
      if k != s.calls[chains[i][h[i]]].key {
        HeldGrows(s.calls, chains, h, i, k);
      }
    }
  }

  /** The last call of a chain waits, once the next chain holds all it holds. */
  lemma KeyIsHeld(s: State, chains: seq<seq<CallId>>, i: nat)
    requires HoldAndWait(s.calls, s.capacity, chains) && Inv(s) && |s.phases| == |s.calls| && i < |chains|
    requires var next := chains[Succ(i, |chains|)];
             forall j | 0 <= j < |next| - 1 :: next[j] < |s.phases| && s.phases[next[j]].Dispatching?
    ensures Chain(s.calls, chains[i])
    ensures DecisionFor(s, chains[i][|chains[i]| - 1]).Wait?
  {
    var n := Succ(i, |chains|);
    assert Chain(s.calls, chains[i]) && Chain(s.calls, chains[n]) && WaitsFor(s.calls, chains[i], chains[n]);
    var top := chains[i][|chains[i]| - 1];
    var j :| 0 <= j < |chains[n]| - 1 && SameWork(s.calls[top], s.calls[chains[n][j]]);
    ChainsApart(s.calls, chains, i, |chains[i]| - 1, n, j);
    assert Owning(s.phases[chains[n][j]]);
    hide Inv, Chains, DistinctThreads, DistinctHolders, Owning;
    OwnsOrigin(s, chains[n][j]);
  }

  lemma TopWaits(s: State, chains: seq<seq<CallId>>, h: seq<nat>, i: nat)
    requires HoldAndWait(s.calls, s.capacity, chains) && Climbed(s, chains, h) && |h| == |chains| && i < |chains|
    requires h[i] == |chains[i]| - 1 && forall q | 0 <= q < |chains| :: h[q] >= |chains[q]| - 1
    ensures var call := s.calls[chains[i][h[i]]];
            chains[i][h[i]] < |s.calls| && Decide(s.entries, s.capacity, call.key, call.digest, call.thread).Wait?
  {
    RingParts(s.calls, s.capacity, chains);
    assert Succ(i, |chains|) < |chains|;
    hide *;
    ReadyToClimb(s, chains, h, i);
    ClimbedParts(s, chains, h);
    HoldersDispatch(s, chains, h, Succ(i, |chains|));
    KeyIsHeld(s, chains, i);
    DecisionIs(s, chains[i][h[i]]);
  }

  lemma ClimbTop(s: State, chains: seq<seq<CallId>>, h: seq<nat>, i: nat)
    requires HoldAndWait(s.calls, s.capacity, chains) && Climbed(s, chains, h) && |h| == |chains| && i < |chains|
    requires h[i] == |chains[i]| - 1 && forall q | 0 <= q < |chains| :: h[q] >= |chains[q]| - 1
    ensures var ls := CallAndLook(chains[i][h[i]], 0);
            && Runs(s, ls) && After(s, ls).calls == s.calls && After(s, ls).capacity == s.capacity
            && Climbed(After(s, ls), chains, h[i := h[i] + 1])
  {
    hide *;
    var c := chains[i][h[i]];
    ReadyToClimb(s, chains, h, i);
    TopWaits(s, chains, h, i);
    ClimbedParts(s, chains, h);
    RingParts(s.calls, s.capacity, chains);
    ZeroIsNanos();
    CallWaits(s, c, 0);
    RunInv(s, CallAndLook(c, 0));
    var t := After(s, CallAndLook(c, 0));
    PushedChains(s, t, chains, h, i, Waiting(0));
    HeldHigher(s, t, chains, h, i);
    JoinClimbed(t, chains, h[i := h[i] + 1]);
  }

  lemma DecisionIs(s: State, c: CallId)
    requires c < |s.calls|
    ensures DecisionFor(s, c) == Decide(s.entries, s.capacity, s.calls[c].key, s.calls[c].digest, s.calls[c].thread)
  {
  }

  lemma HoldersDispatch(s: State, chains: seq<seq<CallId>>, h: seq<nat>, q: nat)
    requires Climbed(s, chains, h) && q < |chains| && h[q] >= |chains[q]| - 1
    ensures forall j | 0 <= j < |chains[q]| - 1 :: chains[q][j] < |s.phases| && s.phases[chains[q][j]].Dispatching?
  {
    hide Inv, OnlyHeld, AllInFlight;
    assert Chain(s.calls, chains[q]) && ChainAt(s, chains[q], h[q]);
    forall j | 0 <= j < |chains[q]| - 1
      ensures chains[q][j] < |s.phases| && s.phases[chains[q][j]].Dispatching?
    {
      assert FrameAt(s.phases[chains[q][j]], chains[q], j, h[q]);
    }
  }

  lemma HeldHigher(s: State, t: State, chains: seq<seq<CallId>>, h: seq<nat>, i: nat)
    requires Chains(s.calls, chains) && |h| == |chains| && OnlyHeld(s, chains, h) && i < |chains|
    requires t.calls == s.calls && t.entries == s.entries
    ensures OnlyHeld(t, chains, h[i := h[i] + 1])
  {
    hide Chains, HeldBy;
    forall k | k in t.entries
      ensures HeldBy(t.calls, chains, h[i := h[i] + 1], k)
    {
      HeldGrows(s.calls, chains, h, i, k);
    }
  }

  function Remaining(chains: seq<seq<CallId>>, h: seq<nat>): nat
    requires |h| == |chains|
  {
    if chains == [] then 0
    else (if h[0] < |chains[0]| then |chains[0]| - h[0] else 0) + Remaining(chains[1..], h[1..])
  }

  lemma {:induction false} RemainingDrops(chains: seq<seq<CallId>>, h: seq<nat>, i: nat)
    requires |h| == |chains| && i < |chains| && h[i] < |chains[i]|
    ensures Remaining(chains, h[i := h[i] + 1]) < Remaining(chains, h)
    decreases |chains|
  {
    if i == 0 {
      assert h[0 := h[0] + 1][1..] == h[1..];
    } else {
      RemainingDrops(chains[1..], h[1..], i - 1);
      assert h[i := h[i] + 1][1..] == h[1..][i - 1 := h[i] + 1];
    }
  }

  /** First every chain takes all it holds, then the last calls are made, one after another. */
  lemma {:induction false} Climb(s: State, chains: seq<seq<CallId>>, h: seq<nat>) returns (ls: seq<Label>, g: seq<nat>)
    requires HoldAndWait(s.calls, s.capacity, chains) && Climbed(s, chains, h)
    ensures Runs(s, ls) && After(s, ls).calls == s.calls && After(s, ls).capacity == s.capacity
    ensures Climbed(After(s, ls), chains, g) && forall i | 0 <= i < |chains| :: g[i] == |chains[i]|
    decreases Remaining(chains, h)
  {
    hide *;
    Heights(s, chains, h);
    NoSteps(s);
    ZeroIsNanos();
    var i: nat;
    if q :| 0 <= q < |chains| && h[q] < |chains[q]| - 1 {
      i := q;
      ClimbHolder(s, chains, h, i);
    } else if q :| 0 <= q < |chains| && h[q] < |chains[q]| {
      i := q;
      ClimbTop(s, chains, h, i);
    } else {
      return [], h;
    }
    RemainingDrops(chains, h, i);
    var first := CallAndLook(chains[i][h[i]], 0);
    var rest;
    rest, g := Climb(After(s, first), chains, h[i := h[i] + 1]);
    RunsAppend(s, first, rest);
    ls := first + rest;
  }

  lemma Heights(s: State, chains: seq<seq<CallId>>, h: seq<nat>)
    requires Climbed(s, chains, h)
    ensures |h| == |chains| && forall i | 0 <= i < |chains| :: |chains[i]| >= 2 && h[i] <= |chains[i]|
  {
    hide Inv, OnlyHeld, AllInFlight, Fallback;
    forall i | 0 <= i < |chains|
      ensures |chains[i]| >= 2 && h[i] <= |chains[i]|
    {
      assert Chain(s.calls, chains[i]) && ChainAt(s, chains[i], h[i]);
    }
  }

  /** Every chain holds what it holds, and its last call waits or has been woken to look again. */
  ghost predicate KnotAt(s: State, chain: seq<CallId>)
    requires Chain(s.calls, chain) && |s.phases| == |s.calls|
  {
    var top := chain[|chain| - 1];
    && Stack(s, ThreadOf(s.calls, chain)) == chain
    && (forall j | 0 <= j < |chain| - 1 :: s.phases[chain[j]].Dispatching?)
    && (s.phases[top].Waiting? || s.phases[top].Resuming?)
  }

  ghost predicate Knotted(s: State, chains: seq<seq<CallId>>) {
    && Inv(s) && |s.phases| == |s.calls| && HoldAndWait(s.calls, s.capacity, chains)
    && forall i | 0 <= i < |chains| :: KnotAt(s, chains[i])
  }

  lemma ClimbedIsKnotted(s: State, chains: seq<seq<CallId>>, h: seq<nat>)
    requires HoldAndWait(s.calls, s.capacity, chains) && Climbed(s, chains, h)
    requires forall i | 0 <= i < |chains| :: h[i] == |chains[i]|
    ensures Knotted(s, chains)
  {
    hide Inv, OnlyHeld, AllInFlight, HoldAndWait;
    forall i | 0 <= i < |chains|
      ensures KnotAt(s, chains[i])
    {
      var chain := chains[i];
      assert Chain(s.calls, chain) && ChainAt(s, chain, h[i]);
      assert chain[..h[i]] == chain;
      forall j | 0 <= j < |chain|
        ensures FrameAt(s.phases[chain[j]], chain, j, |chain|)
      {
      }
    }
  }

  /** A call that takes a step and is in a chain is the last of it, and looks again. */
  lemma KnotMover(s: State, l: Label, chain: seq<CallId>)
    requires |s.phases| == |s.calls| && Chain(s.calls, chain) && KnotAt(s, chain) && Enabled(s, l)
    requires s.calls[l.c].thread == ThreadOf(s.calls, chain)
    ensures l == Resume(chain[|chain| - 1])
  {
    hide Fallback;
    var top := chain[|chain| - 1];
    assert chain[|chain| - 1] == top;
  }

  lemma KnotStaysElsewhere(s: State, l: Label, chain: seq<CallId>)
    requires |s.phases| == |s.calls| && Chain(s.calls, chain) && KnotAt(s, chain) && Enabled(s, l)
    requires s.calls[l.c].thread != ThreadOf(s.calls, chain)
    ensures KnotAt(Next(s, l), chain)
  {
    OtherPhases(s, l);
    OtherStacks(s, l, ThreadOf(s.calls, chain));
    assert forall j | 0 <= j < |chain| :: chain[j] != l.c;
    hide Next, Enabled, Fallback;
  }

  lemma WaitsAgain(s: State, c: CallId)
    requires Enabled(s, Resume(c)) && DecisionFor(s, c).Wait?
    ensures c < |s.calls| == |s.phases| && s.phases[c].Resuming?
    ensures Next(s, Resume(c)) == Moved(s, c, Waiting(s.phases[c].initial))
  {
    WaitShape(s, c, s.phases[c].initial);
    hide LookUp, OnTop, DecisionFor;
  }

  lemma KnotLooksAgain(s: State, chains: seq<seq<CallId>>, i: nat)
    requires Knotted(s, chains) && i < |chains| && |chains[i]| > 0 && Enabled(s, Resume(chains[i][|chains[i]| - 1]))
    ensures Chain(s.calls, chains[i]) && KnotAt(Next(s, Resume(chains[i][|chains[i]| - 1])), chains[i])
  {
    hide Inv, HoldAndWait, Next, Enabled, Fallback, DecisionFor;
    RingParts(s.calls, s.capacity, chains);
    var chain := chains[i];
    var n := Succ(i, |chains|);
    assert Chain(s.calls, chain) && KnotAt(s, chain) && Chain(s.calls, chains[n]) && KnotAt(s, chains[n]);
    KeyIsHeld(s, chains, i);
    WaitsAgain(s, chain[|chain| - 1]);
    forall j | 0 <= j < |chain| - 1
      ensures chain[j] != chain[|chain| - 1]
    {
      ChainDistinct(s.calls, chain, j, |chain| - 1);
    }
  }

  lemma KnotStays(s: State, chains: seq<seq<CallId>>, l: Label)
    requires Knotted(s, chains) && Enabled(s, l)
    ensures Knotted(Next(s, l), chains)
  {
    NextInv(s, l);
    hide Inv, Next, Enabled, HoldAndWait, KnotAt;
    RingParts(s.calls, s.capacity, chains);
    assert forall i | 0 <= i < |chains| :: Chain(s.calls, chains[i]) && |chains[i]| >= 2;
    hide Chain;
    forall i | 0 <= i < |chains|
      ensures KnotAt(Next(s, l), chains[i])
    {
      if s.calls[l.c].thread == ThreadOf(s.calls, chains[i]) {
        KnotMover(s, l, chains[i]);
        KnotLooksAgain(s, chains, i);
      } else {
        KnotStaysElsewhere(s, l, chains[i]);
      }
    }
    InvSized(Next(s, l), 0);
  }

  lemma {:induction false} RunsToStuck(s: State, chains: seq<seq<CallId>>) returns (ls: seq<Label>)
    requires Knotted(s, chains)
    ensures Runs(s, ls) && Stuck(After(s, ls)) && Knotted(After(s, ls), chains)
    decreases Total(s.phases, |s.calls|)
  {
    NoSteps(s);
    if Stuck(s) {
      return [];
    }
    var l :| Enabled(s, l);
    hide Knotted, Next, Enabled, Total, Stuck, Runs, After;
    KnotStays(s, chains, l);
    StepDecreases(s, l);
    OneStep(s, l);
    var rest := RunsToStuck(Next(s, l), chains);
    RunsAppend(s, [l], rest);
    ls := [l] + rest;
  }

  lemma StartsClimbing(s: State, chains: seq<seq<CallId>>)
    requires Init(s) && Chains(s.calls, chains)
    ensures Climbed(s, chains, seq(|chains|, i => 0))
  {
    InitInv(s);
    hide Inv, Fallback;
    var h: seq<nat> := seq(|chains|, i => 0);
    forall i | 0 <= i < |chains|
      ensures ChainAt(s, chains[i], h[i])
    {
      assert Chain(s.calls, chains[i]);
      assert chains[i][..0] == [];
    }
  }

  lemma KnottedIsActive(s: State, chains: seq<seq<CallId>>)
    requires Knotted(s, chains)
    ensures exists c | 0 <= c < |s.phases| :: Active(s.phases[c])
  {
    hide Inv;
    RingParts(s.calls, s.capacity, chains);
    assert Chain(s.calls, chains[0]) && KnotAt(s, chains[0]);
    assert Active(s.phases[chains[0][|chains[0]| - 1]]);
  }

  lemma HoldAndWaitDeadlocks(s: State, chains: seq<seq<CallId>>) returns (ls: seq<Label>)
    requires Init(s) && HoldAndWait(s.calls, s.capacity, chains)
    ensures Runs(s, ls) && Deadlocked(After(s, ls)) && Knotted(After(s, ls), chains)
  {
    RingParts(s.calls, s.capacity, chains);
    StartsClimbing(s, chains);
    hide Init, HoldAndWait, Climbed, Knotted, Runs, After, Chains, Stuck;
    var a, g := Climb(s, chains, seq(|chains|, i => 0));
    var t := After(s, a);
    ClimbedIsKnotted(t, chains, g);
    var b := RunsToStuck(t, chains);
    RunsAppend(s, a, b);
    ls := a + b;
    KnottedIsActive(After(t, b), chains);
  }

  // ---------------------------------------------------------------- nothing else deadlocks

  /** The call on top of a thread that waits. */
  predicate BlockedTop(s: State, d: CallId) {
    d < |s.calls| == |s.phases| && OnTop(s, d) && s.phases[d].Waiting?
  }

  /** What `d` asks for is held below `e`, which is blocked itself, on another thread. */
  ghost predicate Blocks(s: State, e: CallId, d: CallId)
    requires BlockedTop(s, d)
  {
    && BlockedTop(s, e) && s.calls[e].thread != s.calls[d].thread
    && var stack := Stack(s, s.calls[e].thread);
       exists j | 0 <= j < |stack| - 1 :: stack[j] < |s.calls| && SameWork(s.calls[d], s.calls[stack[j]])
  }

  lemma ActiveTopIsBlocked(s: State, c: CallId) returns (d: CallId)
    requires Inv(s) && Stuck(s) && c < |s.calls| == |s.phases| && Active(s.phases[c])
    ensures BlockedTop(s, d) && s.calls[d].thread == s.calls[c].thread
  {
    hide Reserved, WaitersBlocked, TerminalsTraced, AnswersTraced, Traced, StackFormed, OnTop, Enabled, Active;
    var i := StackIndex(s, c);
    var t := s.calls[c].thread;
    TopFormed(s, t);
    d := s.stacks[t][|s.stacks[t]| - 1];
    TopOfThread(s, t);
    if !s.phases[d].Waiting? {
      TopMoves(s, d);
      assert false;
    }
  }

  lemma TopOfThread(s: State, t: ThreadId)
    requires Sized(s) && t in s.stacks && StackFormed(s, t) && s.stacks[t] != []
    ensures var d := s.stacks[t][|s.stacks[t]| - 1]; d < |s.calls| && s.calls[d].thread == t
  {
  }

  /** In a state where nothing moves, what a thread waits for is held by a thread that waits too. */
  lemma NextBlocked(s: State, d: CallId) returns (e: CallId)
    requires Inv(s) && Stuck(s) && BlockedTop(s, d)
    ensures Blocks(s, e, d)
  {
    var k := s.calls[d].key;
    hide Stuck, OnTop;
    WaitsForAnother(s, d);
    ReservationHasOneFrame(s, k);
    var o := s.origin[k];
    assert Active(s.phases[o]) && !s.phases[o].Waiting?;
    e := ActiveTopIsBlocked(s, o);
    hide Reserved, WaitersBlocked, TerminalsTraced, AnswersTraced, Traced, StackFormed, Active;
    var i := StackIndex(s, o);
    LastOfStack(s, e);
  }

  lemma LastOfStack(s: State, e: CallId)
    requires BlockedTop(s, e)
    ensures var stack := Stack(s, s.calls[e].thread); |stack| > 0 && stack[|stack| - 1] == e
  {
  }

  ghost predicate Path(s: State, path: seq<CallId>) {
    && (forall i | 0 <= i < |path| :: BlockedTop(s, path[i]))
    && (forall i, j | 0 <= i < j < |path| :: path[i] != path[j])
    && (forall i | 1 <= i < |path| :: Blocks(s, path[i], path[i - 1]))
  }

  ghost predicate Ring(s: State, ring: seq<CallId>) {
    && |ring| >= 2
    && (forall i | 0 <= i < |ring| :: BlockedTop(s, ring[i]))
    && (forall i, j | 0 <= i < j < |ring| :: ring[i] != ring[j])
    && (forall i | 0 <= i < |ring| :: Blocks(s, ring[Succ(i, |ring|)], ring[i]))
  }

  function Upto(n: nat): (all: set<nat>)
    ensures |all| == n && forall x: nat :: x in all <==> x < n
  {
    if n == 0 then {}
    else
      var m: nat := n - 1;
      assert m !in Upto(m);
      Upto(m) + {m}
  }

  function Members(path: seq<nat>): set<nat> { set x | x in path }

  lemma {:induction false} DistinctSize(path: seq<nat>)
    requires forall i, j | 0 <= i < j < |path| :: path[i] != path[j]
    ensures |Members(path)| == |path|
    decreases |path|
  {
    if path == [] {
      assert Members(path) == {};
    } else {
      var m := |path| - 1;
      DistinctSize(path[..m]);
      assert path == path[..m] + [path[m]];
      assert Members(path) == Members(path[..m]) + {path[m]};
    }
  }

  lemma DistinctBounded(path: seq<nat>, n: nat)
    requires forall i | 0 <= i < |path| :: path[i] < n
    requires forall i, j | 0 <= i < j < |path| :: path[i] != path[j]
    ensures |path| <= n
  {
    DistinctSize(path);
    forall x | x in Members(path)
      ensures x in Upto(n)
    {
      var i :| 0 <= i < |path| && path[i] == x;
    }
    SubsetSize(Members(path), Upto(n));
  }

  lemma PathBounded(s: State, path: seq<CallId>)
    requires Path(s, path)
    ensures |path| <= |s.calls|
  {
    hide Blocks, OnTop;
    DistinctBounded(path, |s.calls|);
  }

  lemma ClosesRing(s: State, path: seq<CallId>, a: nat)
    requires Path(s, path) && a < |path| - 1 && Blocks(s, path[a], path[|path| - 1])
    ensures Ring(s, path[a..])
  {
    hide Blocks, OnTop;
    var ring := path[a..];
    forall i | 0 <= i < |ring|
      ensures Blocks(s, ring[Succ(i, |ring|)], ring[i])
    {
      assert ring[i] == path[a + i];
      if i + 1 < |ring| {
        assert ring[i + 1] == path[a + i + 1];
        assert Blocks(s, path[a + i + 1], path[a + i + 1 - 1]);
      }
    }
  }

  /** Following what is waited for, some thread comes round again. */
  lemma {:induction false} FindRing(s: State, path: seq<CallId>) returns (ring: seq<CallId>)
    requires Inv(s) && Stuck(s) && Path(s, path) && path != []
    ensures Ring(s, ring)
    decreases |s.calls| - |path|
  {
    hide Inv, Stuck, Blocks, OnTop;
    var last := path[|path| - 1];
    var e := NextBlocked(s, last);
    BlocksAnother(s, e, last);
    if a :| 0 <= a < |path| && path[a] == e {
      ClosesRing(s, path, a);
      return path[a..];
    }
    var longer := path + [e];
    assert Path(s, longer);
    PathBounded(s, longer);
    ring := FindRing(s, longer);
  }

  lemma BlocksAnother(s: State, e: CallId, d: CallId)
    requires BlockedTop(s, d) && Blocks(s, e, d)
    ensures BlockedTop(s, e) && e != d
  {
  }

  function Stacks(s: State, ring: seq<CallId>): (chains: seq<seq<CallId>>)
    requires forall i | 0 <= i < |ring| :: ring[i] < |s.calls|
    ensures |chains| == |ring| && forall i | 0 <= i < |ring| :: chains[i] == Stack(s, s.calls[ring[i]].thread)
  {
    seq(|ring|, i requires 0 <= i < |ring| => Stack(s, s.calls[ring[i]].thread))
  }

  lemma PreparedActive(s: State, c: CallId)
    requires Inv(s) && c < |s.calls| == |s.phases| && (s.phases[c].Dispatching? || s.phases[c].Waiting?)
    ensures Fallback(s.calls[c]).Some?
  {
    hide Reserved, WaitersBlocked, TerminalsTraced, AnswersTraced, Stacked, Fallback;
    assert PhaseTraced(s, c);
  }

  /** The stack of a blocked thread is a chain. */
  lemma StackIsChain(s: State, d: CallId)
    requires Inv(s) && BlockedTop(s, d) && |Stack(s, s.calls[d].thread)| >= 2
    ensures var chain := Stack(s, s.calls[d].thread);
            && Chain(s.calls, chain) && ThreadOf(s.calls, chain) == s.calls[d].thread && chain[|chain| - 1] == d
            && (forall j | 0 <= j < |chain| - 1 :: chain[j] < |s.phases| && s.phases[chain[j]].Dispatching?)
  {
    var t := s.calls[d].thread;
    var chain := Stack(s, t);
    StackedHere(s, t);
    hide Inv, Active, Fallback;
    forall j | 0 <= j < |chain|
      ensures Fallback(s.calls[chain[j]]).Some?
    {
      PreparedActive(s, chain[j]);
    }
  }

  lemma StackedHere(s: State, t: ThreadId)
    requires Inv(s) && Stack(s, t) != []
    ensures Sized(s) && t in s.stacks && StackFormed(s, t)
  {
    hide Reserved, WaitersBlocked, TerminalsTraced, AnswersTraced, Traced, StackFormed;
  }

  /** What the stack of the `i`-th thread of a ring is. */
  lemma RingStack(s: State, ring: seq<CallId>, i: nat)
    requires Inv(s) && Ring(s, ring) && i < |ring|
    ensures ring[i] < |s.calls|
    ensures var chain := Stack(s, s.calls[ring[i]].thread);
            && Chain(s.calls, chain) && ThreadOf(s.calls, chain) == s.calls[ring[i]].thread
            && chain[|chain| - 1] == ring[i]
            && (forall j | 0 <= j < |chain| - 1 :: chain[j] < |s.phases| && s.phases[chain[j]].Dispatching?)
  {
    hide Inv, OnTop, Chain, SameWork, Stack;
    var before := if i == 0 then |ring| - 1 else i - 1;
    assert Succ(before, |ring|) == i && Blocks(s, ring[Succ(before, |ring|)], ring[before]);
    StackIsChain(s, ring[i]);
  }

  lemma RingWaits(s: State, ring: seq<CallId>, i: nat)
    requires Inv(s) && Ring(s, ring) && i < |ring| && Succ(i, |ring|) < |ring|
    ensures ring[i] < |s.calls| && ring[Succ(i, |ring|)] < |s.calls|
    ensures var a := Stack(s, s.calls[ring[i]].thread);
            var b := Stack(s, s.calls[ring[Succ(i, |ring|)]].thread);
            Chain(s.calls, a) && Chain(s.calls, b) && WaitsFor(s.calls, a, b)
  {
    hide Inv, OnTop, Chain, SameWork, Stack;
    RingStack(s, ring, i);
    RingStack(s, ring, Succ(i, |ring|));
    assert Blocks(s, ring[Succ(i, |ring|)], ring[i]);
  }

  lemma OneTop(s: State, c: CallId, d: CallId)
    requires BlockedTop(s, c) && BlockedTop(s, d) && c != d
    ensures s.calls[c].thread != s.calls[d].thread
  {
  }

  lemma RingApart(s: State, ring: seq<CallId>, i: nat, j: nat)
    requires Ring(s, ring) && i < j < |ring|
    ensures ring[i] < |s.calls| && ring[j] < |s.calls| && s.calls[ring[i]].thread != s.calls[ring[j]].thread
  {
    hide Blocks, OnTop;
    OneTop(s, ring[i], ring[j]);
  }

  /** All but the last calls of the chains dispatch. */
  ghost predicate HoldersDispatching(s: State, chains: seq<seq<CallId>>) {
    forall i, j | 0 <= i < |chains| && 0 <= j < |chains[i]| - 1 ::
      chains[i][j] < |s.phases| && s.phases[chains[i][j]].Dispatching?
  }

  lemma RingIsChains(s: State, ring: seq<CallId>, chains: seq<seq<CallId>>)
    requires Inv(s) && Ring(s, ring) && |ring| >= 2 && forall i | 0 <= i < |ring| :: ring[i] < |s.calls|
    requires |chains| == |ring| && forall i | 0 <= i < |ring| :: chains[i] == Stack(s, s.calls[ring[i]].thread)
    ensures Chains(s.calls, chains) && DistinctThreads(s.calls, chains) && InRing(s.calls, chains)
    ensures HoldersDispatching(s, chains)
  {
    hide Inv, Ring, Chain, Stack, WaitsFor, ThreadOf;
    forall i | 0 <= i < |chains|
      ensures Chain(s.calls, chains[i]) && ThreadOf(s.calls, chains[i]) == s.calls[ring[i]].thread
      ensures forall j | 0 <= j < |chains[i]| - 1 :: chains[i][j] < |s.phases| && s.phases[chains[i][j]].Dispatching?
    {
      RingStack(s, ring, i);
    }
    forall i | 0 <= i < |chains|
      ensures WaitsFor(s.calls, chains[i], chains[Succ(i, |chains|)])
    {
      RingWaits(s, ring, i);
    }
    forall i, j | 0 <= i < j < |chains|
      ensures ThreadOf(s.calls, chains[i]) != ThreadOf(s.calls, chains[j])
    {
      RingApart(s, ring, i, j);
    }
  }

  /** What dispatching calls hold is theirs alone and in the table. */
  lemma HoldersAreDistinct(s: State, chains: seq<seq<CallId>>)
    requires Inv(s) && |s.phases| == |s.calls| && Chains(s.calls, chains) && DistinctThreads(s.calls, chains)
    requires HoldersDispatching(s, chains)
    ensures DistinctHolders(s.calls, chains) && HolderKeys(s.calls, chains) <= s.entries.Keys
  {
    hide Inv, Chain, Chains, DistinctThreads;
    forall i, j | 0 <= i < |chains| && 0 <= j < |chains[i]| - 1
      ensures var c := chains[i][j];
              s.calls[c].key in s.entries && s.calls[c].key in s.origin && s.origin[s.calls[c].key] == c
    {
      DispatcherOwns(s, chains[i][j]);
    }
    forall i, j, p, q | 0 <= i < |chains| && 0 <= j < |chains[i]| - 1 && 0 <= p < |chains| && 0 <= q < |chains[p]| - 1
                        && s.calls[chains[i][j]].key == s.calls[chains[p][q]].key
      ensures i == p && j == q
    {
      assert chains[i][j] == chains[p][q];
      SameFrame(s.calls, chains, i, j, p, q);
    }
  }

  lemma DispatcherOwns(s: State, c: CallId)
    requires Inv(s) && c < |s.calls| == |s.phases| && s.phases[c].Dispatching?
    ensures s.calls[c].key in s.entries && s.calls[c].key in s.origin && s.origin[s.calls[c].key] == c
  {
    assert Owning(s.phases[c]);
    hide Inv, Owning;
    OwnsOrigin(s, c);
  }

  lemma SameFrame(calls: seq<Call>, chains: seq<seq<CallId>>, i: nat, j: nat, p: nat, q: nat)
    requires Chains(calls, chains) && DistinctThreads(calls, chains) && i < |chains| && p < |chains|
    requires j < |chains[i]| && q < |chains[p]| && chains[i][j] == chains[p][q]
    ensures i == p && j == q
  {
    hide Chain;
    if i != p {
      ChainsApart(calls, chains, i, j, p, q);
    } else if j < q {
      ChainDistinct(calls, chains[i], j, q);
    } else if q < j {
      ChainDistinct(calls, chains[i], q, j);
    }
  }

  lemma JoinRing(calls: seq<Call>, capacity: nat, chains: seq<seq<CallId>>)
    requires |chains| >= 2 && Chains(calls, chains) && DistinctThreads(calls, chains) && DistinctHolders(calls, chains)
    requires |HolderKeys(calls, chains)| <= capacity && InRing(calls, chains)
    ensures HoldAndWait(calls, capacity, chains)
  {
    hide Chains, DistinctThreads, DistinctHolders, HolderKeys, InRing;
  }

  lemma RingHoldsAndWaits(s: State, ring: seq<CallId>) returns (chains: seq<seq<CallId>>)
    requires Inv(s) && |s.phases| == |s.calls| && Ring(s, ring)
    ensures HoldAndWait(s.calls, s.capacity, chains)
  {
    RingInRange(s, ring);
    hide *;
    chains := Stacks(s, ring);
    RingIsChains(s, ring, chains);
    HoldersAreDistinct(s, chains);
    CapacityBounds(s);
    SubsetSize(HolderKeys(s.calls, chains), s.entries.Keys);
    JoinRing(s.calls, s.capacity, chains);
  }

  lemma CapacityBounds(s: State)
    requires Inv(s)
    ensures |s.entries.Keys| <= s.capacity
  {
    hide Reserved, WaitersBlocked, TerminalsTraced, AnswersTraced, Traced, Stacked;
  }

  lemma RingInRange(s: State, ring: seq<CallId>)
    requires Ring(s, ring)
    ensures |ring| >= 2 && forall i | 0 <= i < |ring| :: ring[i] < |s.calls|
  {
    hide Blocks, OnTop;
  }

  lemma OneStepPath(s: State, d: CallId)
    requires BlockedTop(s, d)
    ensures Path(s, [d])
  {
    hide OnTop;
  }

  lemma DeadlockedHoldsAndWaits(s: State) returns (chains: seq<seq<CallId>>)
    requires Inv(s) && Deadlocked(s)
    ensures HoldAndWait(s.calls, s.capacity, chains)
  {
    hide Inv, Stuck, Active, HoldAndWait;
    var c :| 0 <= c < |s.phases| && Active(s.phases[c]);
    hide *;
    InvSized(s, c);
    var d := ActiveTopIsBlocked(s, c);
    OneStepPath(s, d);
    var ring := FindRing(s, [d]);
    chains := RingHoldsAndWaits(s, ring);
  }

  /** Exactly when calls can deadlock: some run of them gets stuck with a call running if and only if among them are two
      or more threads' chains of nested calls in a ring, each holding what the one before it asks for, with equal
      digests, different keys held throughout, and room in the table for all of them. */
  lemma DeadlockExactly(s: State)
    requires Init(s)
    ensures CanDeadlock(s) <==> exists chains :: HoldAndWait(s.calls, s.capacity, chains)
  {
    InitInv(s);
    hide Init, Inv, Deadlocked, HoldAndWait, Runs, After;
    if CanDeadlock(s) {
      var ls :| Runs(s, ls) && Deadlocked(After(s, ls));
      RunInv(s, ls);
      var chains := DeadlockedHoldsAndWaits(After(s, ls));
    }
    if chains :| HoldAndWait(s.calls, s.capacity, chains) {
      var ls := HoldAndWaitDeadlocks(s, chains);
    }
  }

  // ---------------------------------------------------------------- keys in increasing order

  lemma {:induction false} ChainRises(calls: seq<Call>, rank: Key -> nat, chain: seq<CallId>, i: nat, j: nat)
    requires Chain(calls, chain) && Ordered(calls, rank) && i < j < |chain|
    ensures rank(calls[chain[i]].key) < rank(calls[chain[j]].key)
    decreases j
  {
    hide Fallback;
    assert calls[chain[j]].parent == Some(chain[j - 1]);
    if i < j - 1 {
      ChainRises(calls, rank, chain, i, j - 1);
    }
  }

  function TopRank(calls: seq<Call>, rank: Key -> nat, chain: seq<CallId>): nat {
    if chain != [] && chain[|chain| - 1] < |calls| then rank(calls[chain[|chain| - 1]].key) else 0
  }

  lemma TopsRise(calls: seq<Call>, rank: Key -> nat, a: seq<CallId>, b: seq<CallId>)
    requires Chain(calls, a) && Chain(calls, b) && Ordered(calls, rank) && WaitsFor(calls, a, b)
    ensures TopRank(calls, rank, a) < TopRank(calls, rank, b)
  {
    hide Fallback, Ordered;
    var j :| 0 <= j < |b| - 1 && SameWork(calls[a[|a| - 1]], calls[b[j]]);
    ChainRises(calls, rank, b, j, |b| - 1);
  }

  lemma RingLink(calls: seq<Call>, capacity: nat, chains: seq<seq<CallId>>, i: nat)
    requires HoldAndWait(calls, capacity, chains) && i < |chains|
    ensures |chains| >= 2
    ensures var next := chains[Succ(i, |chains|)];
            Chain(calls, chains[i]) && Chain(calls, next) && WaitsFor(calls, chains[i], next)
  {
    hide Chain, DistinctHolders, DistinctThreads, HolderKeys, WaitsFor;
  }

  lemma {:induction false} RingRises(
      calls: seq<Call>, capacity: nat, rank: Key -> nat, chains: seq<seq<CallId>>, i: nat)
    requires HoldAndWait(calls, capacity, chains) && Ordered(calls, rank) && i < |chains|
    ensures TopRank(calls, rank, chains[0]) + i <= TopRank(calls, rank, chains[i])
    decreases i
  {
    hide HoldAndWait, Ordered, Chain, WaitsFor, TopRank;
    if i > 0 {
      RingRises(calls, capacity, rank, chains, i - 1);
      RingLink(calls, capacity, chains, i - 1);
      TopsRise(calls, rank, chains[i - 1], chains[i]);
    }
  }

  /** Keys taken in increasing order are enough, but not needed: such calls have no ring. */
  lemma OrderedHasNoRing(calls: seq<Call>, capacity: nat, rank: Key -> nat, chains: seq<seq<CallId>>)
    requires Ordered(calls, rank)
    ensures !HoldAndWait(calls, capacity, chains)
  {
    hide HoldAndWait, Ordered, Chain, WaitsFor, TopRank;
    if HoldAndWait(calls, capacity, chains) {
      AtLeastTwo(calls, capacity, chains);
      var n := |chains|;
      RingRises(calls, capacity, rank, chains, n - 1);
      RingLink(calls, capacity, chains, n - 1);
      TopsRise(calls, rank, chains[n - 1], chains[0]);
    }
  }

  lemma AtLeastTwo(calls: seq<Call>, capacity: nat, chains: seq<seq<CallId>>)
    requires HoldAndWait(calls, capacity, chains)
    ensures |chains| >= 2
  {
    hide Chains, DistinctHolders, DistinctThreads, WaitsFor;
  }
}
