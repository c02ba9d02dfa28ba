/** The bounded walk over decoded JSON that refuses repeated object names (section 4 of RFC 7519), and its agreement
    with the ordinary parse, in which the last of several members with one name wins. */
module StructuralJson {
  import opened Wrappers

  const MAX_DEPTH := 16
  const MAX_MEMBERS := 64

  datatype Key = Text(text: string) | NonText(id: int)

  datatype Member = Member(key: Key, value: Json)

  /** What the walk is handed.  `Pairs` is an object as the parser's pairs hook reports it, repetitions included;
      `Dict` is a dictionary in insertion order; `Alien` is a value of any type that JSON does not have. */
  datatype Json =
    | Pairs(members: seq<Member>)
    | Dict(members: seq<Member>)
    | List(items: seq<Json>)
    | Null
    | Boolean(b: bool)
    | Whole(n: int)
    | Fraction(r: real)
    | String(s: string)
    | Alien(tag: int)

  predicate TextKeys(ms: seq<Member>) { forall i | 0 <= i < |ms| :: ms[i].key.Text? }

  predicate DistinctKeys(ms: seq<Member>) {
    forall i, j | 0 <= i < j < |ms| :: ms[i].key != ms[j].key
  }

  // ---------------------------------------------------------------- dictionaries

  /** `d[key] = value`: a known key keeps its place. */
  function Put(d: seq<Member>, key: Key, value: Json): seq<Member> {
    if d == [] then [Member(key, value)]
    else if d[0].key == key then [Member(key, value)] + d[1..]
    else [d[0]] + Put(d[1..], key, value)
  }

  function PutAll(d: seq<Member>, ms: seq<Member>): seq<Member>
    decreases |ms|
  {
    if ms == [] then d else PutAll(Put(d, ms[0].key, ms[0].value), ms[1..])
  }

  function Get(d: seq<Member>, key: Key): Option<Json> {
    if d == [] then None
    else if d[0].key == key then Some(d[0].value)
    else Get(d[1..], key)
  }

  function LastOf(ms: seq<Member>, key: Key): Option<Json> {
    if ms == [] then None
    else if ms[|ms| - 1].key == key then Some(ms[|ms| - 1].value)
    else LastOf(ms[..|ms| - 1], key)
  }

  lemma {:induction false} GetAfterPut(d: seq<Member>, key: Key, value: Json, other: Key)
    ensures Get(Put(d, key, value), other) == if other == key then Some(value) else Get(d, other)
    decreases |d|
  {
    if d != [] && d[0].key != key {
      GetAfterPut(d[1..], key, value, other);
      assert Put(d, key, value)[1..] == Put(d[1..], key, value);
    }
  }

  lemma {:induction false} PutAllLast(d: seq<Member>, ms: seq<Member>)
    requires ms != []
    ensures var n := |ms| - 1; PutAll(d, ms) == Put(PutAll(d, ms[..n]), ms[n].key, ms[n].value)
    decreases |ms|
  {
    if |ms| > 1 {
      PutAllLast(Put(d, ms[0].key, ms[0].value), ms[1..]);
      assert ms[1..][..|ms| - 2] == ms[..|ms| - 1][1..];
    } else {
      assert ms[..0] == [] && ms[1..] == [];
    }
  }

  /** Filling a dictionary from a list of members, the last member with a name wins. */
  lemma {:induction false} LastWins(ms: seq<Member>, key: Key)
    ensures Get(PutAll([], ms), key) == LastOf(ms, key)
    decreases |ms|
  {
    if ms != [] {
      var n := |ms| - 1;
      PutAllLast([], ms);
      LastWins(ms[..n], key);
      GetAfterPut(PutAll([], ms[..n]), ms[n].key, ms[n].value, key);
    }
  }

  lemma {:induction false} PutFresh(d: seq<Member>, key: Key, value: Json)
    requires forall i | 0 <= i < |d| :: d[i].key != key
    ensures Put(d, key, value) == d + [Member(key, value)]
    decreases |d|
  {
    if d != [] {
      PutFresh(d[1..], key, value);
    }
  }

  lemma {:induction false} PutAllDistinct(d: seq<Member>, ms: seq<Member>)
    requires DistinctKeys(d + ms)
    ensures PutAll(d, ms) == d + ms
    decreases |ms|
  {
    if ms == [] {
      assert d + ms == d;
    } else {
      forall i | 0 <= i < |d|
        ensures d[i].key != ms[0].key
      {
        assert (d + ms)[i] == d[i] && (d + ms)[|d|] == ms[0];
      }
      PutFresh(d, ms[0].key, ms[0].value);
      assert ms[0] == Member(ms[0].key, ms[0].value);
      assert d + [ms[0]] + ms[1..] == d + ms;
      PutAllDistinct(d + [ms[0]], ms[1..]);
    }
  }

  // ---------------------------------------------------------------- the walk

  /** The walk from a node at `depth` when `count` members have been seen: the new count and the value, unless
      refused. */
  function Walked(count: nat, j: Json, depth: nat): Option<(nat, Json)>
    decreases j
  {
    if depth > MAX_DEPTH then None
    else match j
      case Pairs(ms) =>
        if count + |ms| > MAX_MEMBERS || !TextKeys(ms) || !DistinctKeys(ms) then None
        else AsDict(WalkedMembers(count + |ms|, ms, depth, []))
      case Dict(ms) =>
        if count + |ms| > MAX_MEMBERS || !TextKeys(ms) then None
        else AsDict(WalkedMembers(count + |ms|, ms, depth, []))
      case List(items) =>
        var r := WalkedItems(count, items, depth, []);
        if r.None? then None else Some((r.value.0, List(r.value.1)))
      case Alien(_) => None
      case _ => Some((count, j))
  }

  function AsDict(r: Option<(nat, seq<Member>)>): Option<(nat, Json)> {
    if r.None? then None else Some((r.value.0, Dict(r.value.1)))
  }

  function WalkedMembers(count: nat, ms: seq<Member>, depth: nat, built: seq<Member>): Option<(nat, seq<Member>)>
    decreases ms
  {
    if ms == [] then Some((count, built))
    else
      assert ms[0] decreases to ms[0].value;
      match Walked(count, ms[0].value, depth + 1)
      case None => None
      case Some((seen, v)) => WalkedMembers(seen, ms[1..], depth, Put(built, ms[0].key, v))
  }

  function WalkedItems(count: nat, items: seq<Json>, depth: nat, built: seq<Json>): Option<(nat, seq<Json>)>
    decreases items
  {
    if items == [] then Some((count, built))
    else
      match Walked(count, items[0], depth + 1)
      case None => None
      case Some((seen, v)) => WalkedItems(seen, items[1..], depth, built + [v])
  }

  /** One walk of one tree.  The counter is shared by every level of the recursion. */
  class Walker {
    var memberCount: nat

    constructor ()
      ensures memberCount == 0
    {
      memberCount := 0;
    }

    method Walk(candidate: Json, depth: nat) returns (r: Option<Json>)
      modifies this
      ensures var w := Walked(old(memberCount), candidate, depth);
              if w.None? then r.None? else r == Some(w.value.1) && memberCount == w.value.0
      decreases candidate, 1
    {
      if depth > MAX_DEPTH {
        return None;
      }
      match candidate {
        case Pairs(ms) =>
          memberCount := memberCount + |ms|;
          if memberCount > MAX_MEMBERS {
            return None;
          }
          if !TextKeys(ms) || !DistinctKeys(ms) {
            return None;
          }
          r := WalkMembers(candidate, depth);
        case Dict(ms) =>
          memberCount := memberCount + |ms|;
          if memberCount > MAX_MEMBERS {
            return None;
          }
          if !TextKeys(ms) {
            return None;
          }
          r := WalkMembers(candidate, depth);
        case List(items) =>
          r := WalkItems(candidate, depth);
        case Alien(_) =>
          r := None;
        case _ =>
          r := Some(candidate);
      }
    }

    method WalkMembers(candidate: Json, depth: nat) returns (r: Option<Json>)
      requires candidate.Pairs? || candidate.Dict?
      modifies this
      ensures var w := AsDict(WalkedMembers(old(memberCount), candidate.members, depth, []));
              if w.None? then r.None? else r == Some(w.value.1) && memberCount == w.value.0
      decreases candidate, 0
    {
      var ms := candidate.members;
      var built: seq<Member> := [];
      for i := 0 to |ms|
        invariant WalkedMembers(memberCount, ms[i..], depth, built) ==
                  WalkedMembers(old(memberCount), ms, depth, [])
      {
        assert ms[i..][0] == ms[i] && ms[i..][1..] == ms[i + 1..];
        var v := Walk(ms[i].value, depth + 1);
        if v.None? {
          return None;
        }
        built := Put(built, ms[i].key, v.value);
      }
      r := Some(Dict(built));
    }

    method WalkItems(candidate: Json, depth: nat) returns (r: Option<Json>)
      requires candidate.List?
      modifies this
      ensures var w := WalkedItems(old(memberCount), candidate.items, depth, []);
              if w.None? then r.None? else r == Some(List(w.value.1)) && memberCount == w.value.0
      decreases candidate, 0
    {
      var items := candidate.items;
      var built: seq<Json> := [];
      for i := 0 to |items|
        invariant WalkedItems(memberCount, items[i..], depth, built) ==
                  WalkedItems(old(memberCount), items, depth, [])
      {
        assert items[i..][0] == items[i] && items[i..][1..] == items[i + 1..];
        var v := Walk(items[i], depth + 1);
        if v.None? {
          return None;
        }
        built := built + [v.value];
      }
      r := Some(List(built));
    }
  }

  /** A walk of a whole tree. */
  function Structural(t: Json): Option<Json> {
    match Walked(0, t, 0)
    case None => None
    case Some((_, v)) => Some(v)
  }

  method WalkStructuralJson(value: Json) returns (r: Option<Json>)
    ensures r == Structural(value)
  {
    var walker := new Walker();
    r := walker.Walk(value, 0);
  }

  // ---------------------------------------------------------------- what the walk accepts

  /** The most steps from a node down to one below it; leaves and empty containers are at height zero. */
  function Height(j: Json): nat
    decreases j
  {
    match j
    case Pairs(ms) => MemberHeight(ms)
    case Dict(ms) => MemberHeight(ms)
    case List(items) => ItemHeight(items)
    case _ => 0
  }

  function MemberHeight(ms: seq<Member>): nat
    decreases ms
  {
    if ms == [] then 0 else assert ms[0] decreases to ms[0].value; Max(1 + Height(ms[0].value), MemberHeight(ms[1..]))
  }

  function ItemHeight(items: seq<Json>): nat
    decreases items
  {
    if items == [] then 0 else Max(1 + Height(items[0]), ItemHeight(items[1..]))
  }

  /** The object members in a whole tree. */
  function Total(j: Json): nat
    decreases j
  {
    match j
    case Pairs(ms) => |ms| + MemberTotal(ms)
    case Dict(ms) => |ms| + MemberTotal(ms)
    case List(items) => ItemTotal(items)
    case _ => 0
  }

  function MemberTotal(ms: seq<Member>): nat
    decreases ms
  {
    if ms == [] then 0 else assert ms[0] decreases to ms[0].value; Total(ms[0].value) + MemberTotal(ms[1..])
  }

  function ItemTotal(items: seq<Json>): nat
    decreases items
  {
    if items == [] then 0 else Total(items[0]) + ItemTotal(items[1..])
  }

  /** Every object of the tree has text keys, every parsed object has no key twice, and no value is foreign to JSON. */
  predicate Closed(j: Json)
    decreases j
  {
    match j
    case Pairs(ms) =>
      && (forall i | 0 <= i < |ms| :: ms[i].key.Text? && Closed(ms[i].value))
      && (forall i, j | 0 <= i < j < |ms| :: ms[i].key != ms[j].key)
    case Dict(ms) => forall i | 0 <= i < |ms| :: ms[i].key.Text? && Closed(ms[i].value)
    case List(items) => forall i | 0 <= i < |items| :: Closed(items[i])
    case Alien(_) => false
    case _ => true
  }

  /** The tree an ordinary parse of the same text gives. */
  function Materialised(j: Json): Json
    decreases j
  {
    match j
    case Pairs(ms) => Dict(PutAll([], MaterialisedMembers(ms)))
    case Dict(ms) => Dict(PutAll([], MaterialisedMembers(ms)))
    case List(items) => List(MaterialisedItems(items))
    case _ => j
  }

  function MaterialisedMembers(ms: seq<Member>): (r: seq<Member>)
    ensures |r| == |ms| && forall i | 0 <= i < |ms| :: r[i].key == ms[i].key
    decreases ms
  {
    if ms == [] then []
    else
      assert ms[0] decreases to ms[0].value;
      [Member(ms[0].key, Materialised(ms[0].value))] + MaterialisedMembers(ms[1..])
  }

  function MaterialisedItems(items: seq<Json>): (r: seq<Json>)
    ensures |r| == |items|
    decreases items
  {
    if items == [] then [] else [Materialised(items[0])] + MaterialisedItems(items[1..])
  }

  predicate Accepted(count: nat, j: Json, depth: nat) {
    Closed(j) && depth + Height(j) <= MAX_DEPTH && count + Total(j) <= MAX_MEMBERS
  }

  /** The walk succeeds exactly on the trees that are closed, nowhere deeper than sixteen and have at most sixty-four
      members in all; it then counts every member once and returns what an ordinary parse returns. */
  lemma {:induction false} WalkedExactly(count: nat, j: Json, depth: nat)
    requires count <= MAX_MEMBERS
    ensures Walked(count, j, depth) ==
            if Accepted(count, j, depth) then Some((count + Total(j), Materialised(j))) else None
    decreases j
  {
    hide WalkedMembers, WalkedItems, MaterialisedMembers, MaterialisedItems;
    hide MemberHeight, ItemHeight, MemberTotal, ItemTotal;
    if depth <= MAX_DEPTH {
      match j {
        case Pairs(ms) =>
          if count + |ms| <= MAX_MEMBERS {
            MembersExactly(count + |ms|, ms, depth, []);
          }
        case Dict(ms) =>
          if count + |ms| <= MAX_MEMBERS {
            MembersExactly(count + |ms|, ms, depth, []);
          }
        case List(items) =>
          ItemsExactly(count, items, depth, []);
          assert [] + MaterialisedItems(items) == MaterialisedItems(items);
        case _ =>
      }
    }
  }

  predicate AcceptedMembers(count: nat, ms: seq<Member>, depth: nat) {
    && (forall i | 0 <= i < |ms| :: Closed(ms[i].value))
    && depth + MemberHeight(ms) <= MAX_DEPTH
    && count + MemberTotal(ms) <= MAX_MEMBERS
  }

  lemma AcceptedFirst(count: nat, ms: seq<Member>, depth: nat)
    requires ms != []
    ensures AcceptedMembers(count, ms, depth) <==>
            && Accepted(count, ms[0].value, depth + 1)
            && AcceptedMembers(count + Total(ms[0].value), ms[1..], depth)
  {
    hide Closed, Total, Height;
    assert ms == [ms[0]] + ms[1..];
  }

  lemma UnfoldMembers(count: nat, ms: seq<Member>, depth: nat, built: seq<Member>)
    requires ms != []
    ensures WalkedMembers(count, ms, depth, built) ==
            match Walked(count, ms[0].value, depth + 1)
            case None => None
            case Some((seen, v)) => WalkedMembers(seen, ms[1..], depth, Put(built, ms[0].key, v))
    ensures MemberTotal(ms) == Total(ms[0].value) + MemberTotal(ms[1..])
    ensures PutAll(built, MaterialisedMembers(ms)) ==
            PutAll(Put(built, ms[0].key, Materialised(ms[0].value)), MaterialisedMembers(ms[1..]))
  {
    hide Walked, Materialised, Total, Put;
    assert MaterialisedMembers(ms)[1..] == MaterialisedMembers(ms[1..]);
  }

  lemma NoMembersExactly(count: nat, depth: nat, built: seq<Member>)
    requires count <= MAX_MEMBERS && depth <= MAX_DEPTH
    ensures AcceptedMembers(count, [], depth) && MemberTotal([]) == 0
    ensures WalkedMembers(count, [], depth, built) == Some((count, PutAll(built, MaterialisedMembers([]))))
  {
  }

  lemma {:induction false} MembersExactly(count: nat, ms: seq<Member>, depth: nat, built: seq<Member>)
    requires count <= MAX_MEMBERS && depth <= MAX_DEPTH
    ensures WalkedMembers(count, ms, depth, built) ==
            if AcceptedMembers(count, ms, depth)
            then Some((count + MemberTotal(ms), PutAll(built, MaterialisedMembers(ms)))) else None
    decreases ms
  {
    hide *;
    if ms == [] {
      NoMembersExactly(count, depth, built);
    } else {
      assert ms[0] decreases to ms[0].value;
      UnfoldMembers(count, ms, depth, built);
      AcceptedFirst(count, ms, depth);
      AcceptedInRange(count, ms[0].value, depth + 1);
      WalkedExactly(count, ms[0].value, depth + 1);
      if Accepted(count, ms[0].value, depth + 1) {
        var v := Materialised(ms[0].value);
        MembersExactly(count + Total(ms[0].value), ms[1..], depth, Put(built, ms[0].key, v));
      }
    }
  }

  lemma AcceptedInRange(count: nat, j: Json, depth: nat)
    ensures Accepted(count, j, depth) ==> count + Total(j) <= MAX_MEMBERS
  {
  }

  predicate AcceptedItems(count: nat, items: seq<Json>, depth: nat) {
    && (forall i | 0 <= i < |items| :: Closed(items[i]))
    && depth + ItemHeight(items) <= MAX_DEPTH
    && count + ItemTotal(items) <= MAX_MEMBERS
  }

  lemma AcceptedFirstItem(count: nat, items: seq<Json>, depth: nat)
    requires items != []
    ensures AcceptedItems(count, items, depth) <==>
            && Accepted(count, items[0], depth + 1)
            && AcceptedItems(count + Total(items[0]), items[1..], depth)
  {
    hide Closed, Total, Height;
    assert items == [items[0]] + items[1..];
  }

  lemma UnfoldItems(count: nat, items: seq<Json>, depth: nat, built: seq<Json>)
    requires items != []
    ensures WalkedItems(count, items, depth, built) ==
            match Walked(count, items[0], depth + 1)
            case None => None
            case Some((seen, v)) => WalkedItems(seen, items[1..], depth, built + [v])
    ensures ItemTotal(items) == Total(items[0]) + ItemTotal(items[1..])
    ensures built + MaterialisedItems(items) == built + [Materialised(items[0])] + MaterialisedItems(items[1..])
  {
    hide Walked, Materialised, Total;
    assert MaterialisedItems(items) == [Materialised(items[0])] + MaterialisedItems(items[1..]);
  }

  lemma NoItemsExactly(count: nat, depth: nat, built: seq<Json>)
    requires count <= MAX_MEMBERS && depth <= MAX_DEPTH
    ensures AcceptedItems(count, [], depth) && ItemTotal([]) == 0
    ensures WalkedItems(count, [], depth, built) == Some((count, built + MaterialisedItems([])))
  {
    assert built + [] == built;
  }

  lemma {:induction false} ItemsExactly(count: nat, items: seq<Json>, depth: nat, built: seq<Json>)
    requires count <= MAX_MEMBERS && depth <= MAX_DEPTH
    ensures WalkedItems(count, items, depth, built) ==
            if AcceptedItems(count, items, depth)
            then Some((count + ItemTotal(items), built + MaterialisedItems(items))) else None
    decreases items
  {
    hide *;
    if items == [] {
      NoItemsExactly(count, depth, built);
    } else {
      UnfoldItems(count, items, depth, built);
      AcceptedFirstItem(count, items, depth);
      AcceptedInRange(count, items[0], depth + 1);
      WalkedExactly(count, items[0], depth + 1);
      if Accepted(count, items[0], depth + 1) {
        ItemsExactly(count + Total(items[0]), items[1..], depth, built + [Materialised(items[0])]);
      }
    }
  }

  /** What is admitted, for a whole tree. */
  lemma StructuralExactly(t: Json)
    ensures Structural(t) ==
            if Closed(t) && Height(t) <= 16 && Total(t) <= 64 then Some(Materialised(t)) else None
  {
    WalkedExactly(0, t, 0);
  }

  // ---------------------------------------------------------------- the same, node by node

  function Children(j: Json): (r: seq<Json>)
    ensures forall i | 0 <= i < |r| :: j decreases to r[i]
  {
    match j
    case Pairs(ms) => seq(|ms|, i requires 0 <= i < |ms| => ms[i].value)
    case Dict(ms) => seq(|ms|, i requires 0 <= i < |ms| => ms[i].value)
    case List(items) => items
    case _ => []
  }

  /** `path` leads from `j` down to a node: at each step it names a child. */
  predicate Leads(j: Json, path: seq<nat>)
    decreases |path|
  {
    path == [] || (path[0] < |Children(j)| && Leads(Children(j)[path[0]], path[1..]))
  }

  function NodeAt(j: Json, path: seq<nat>): Json
    requires Leads(j, path)
    decreases |path|
  {
    if path == [] then j else NodeAt(Children(j)[path[0]], path[1..])
  }

  /** A value JSON has; if it is an object its keys are texts, and as it was parsed no two are equal. */
  predicate Proper(node: Json) {
    && !node.Alien?
    && (node.Pairs? || node.Dict? ==> forall i | 0 <= i < |node.members| :: node.members[i].key.Text?)
    && (node.Pairs? ==> forall i, j | 0 <= i < j < |node.members| :: node.members[i].key != node.members[j].key)
  }

  lemma {:induction false} MemberHeights(ms: seq<Member>, n: nat)
    ensures MemberHeight(ms) <= n <==> forall i | 0 <= i < |ms| :: 1 + Height(ms[i].value) <= n
    decreases ms
  {
    hide Height;
    if ms != [] {
      MemberHeights(ms[1..], n);
      assert ms == [ms[0]] + ms[1..];
    }
  }

  lemma {:induction false} ItemHeights(items: seq<Json>, n: nat)
    ensures ItemHeight(items) <= n <==> forall i | 0 <= i < |items| :: 1 + Height(items[i]) <= n
    decreases items
  {
    hide Height;
    if items != [] {
      ItemHeights(items[1..], n);
      assert items == [items[0]] + items[1..];
    }
  }

  lemma ObjectFine(j: Json, n: nat)
    requires j.Pairs? || j.Dict?
    ensures Closed(j) && Height(j) <= n <==>
              Proper(j) && forall i | 0 <= i < |j.members| ::
                             Closed(j.members[i].value) && 1 + Height(j.members[i].value) <= n
  {
    MemberHeights(j.members, n);
    hide MemberHeight;
  }

  lemma ListFine(j: Json, n: nat)
    requires j.List?
    ensures Closed(j) && Height(j) <= n <==>
              Proper(j) && forall i | 0 <= i < |j.items| :: Closed(j.items[i]) && 1 + Height(j.items[i]) <= n
  {
    ItemHeights(j.items, n);
    hide ItemHeight;
  }

  lemma ChildrenFine(j: Json, n: nat)
    ensures Closed(j) && Height(j) <= n <==>
              Proper(j) && forall i | 0 <= i < |Children(j)| ::
                             Closed(Children(j)[i]) && 1 + Height(Children(j)[i]) <= n
  {
    if j.Pairs? || j.Dict? {
      ObjectFine(j, n);
      hide Closed, Height, Proper;
      assert |Children(j)| == |j.members|;
      assert forall i | 0 <= i < |j.members| :: Children(j)[i] == j.members[i].value;
    } else if j.List? {
      ListFine(j, n);
      hide Closed, Height, Proper;
      assert Children(j) == j.items;
    }
  }

  lemma PathDown(j: Json, i: nat, path: seq<nat>)
    requires i < |Children(j)| && Leads(Children(j)[i], path)
    ensures Leads(j, [i] + path) && NodeAt(j, [i] + path) == NodeAt(Children(j)[i], path)
  {
    hide Children;
    assert ([i] + path)[1..] == path;
  }

  /** No path leads further than `n` steps down, and every node that a path leads to is proper. */
  ghost predicate ProperDownTo(j: Json, n: int) {
    forall path | Leads(j, path) :: |path| <= n && Proper(NodeAt(j, path))
  }

  lemma ProperBelow(j: Json, n: nat)
    ensures ProperDownTo(j, n) <==>
              Proper(j) && forall i | 0 <= i < |Children(j)| :: ProperDownTo(Children(j)[i], n - 1)
  {
    hide Proper, Children;
    assert Leads(j, []) && NodeAt(j, []) == j;
    if ProperDownTo(j, n) {
      forall i, path | 0 <= i < |Children(j)| && Leads(Children(j)[i], path)
        ensures |path| <= n - 1 && Proper(NodeAt(Children(j)[i], path))
      {
        PathDown(j, i, path);
      }
    }
    if Proper(j) && forall i | 0 <= i < |Children(j)| :: ProperDownTo(Children(j)[i], n - 1) {
      forall path | Leads(j, path)
        ensures |path| <= n && Proper(NodeAt(j, path))
      {
        if path != [] {
          var child := Children(j)[path[0]];
          assert ProperDownTo(child, n - 1) && Leads(child, path[1..]);
        }
      }
    }
  }

  lemma NowhereBelowZero(j: Json)
    ensures !ProperDownTo(j, -1)
  {
    assert Leads(j, []);
  }

  /** That is what it means that a tree is closed and no higher than `n`. */
  lemma {:induction false} ClosedByNodes(j: Json, n: nat)
    ensures Closed(j) && Height(j) <= n <==> ProperDownTo(j, n)
    decreases j
  {
    hide Closed, Height, Proper, ProperDownTo;
    ChildrenFine(j, n);
    ProperBelow(j, n);
    forall i | 0 <= i < |Children(j)|
      ensures Closed(Children(j)[i]) && 1 + Height(Children(j)[i]) <= n <==> ProperDownTo(Children(j)[i], n - 1)
    {
      if n == 0 {
        NowhereBelowZero(Children(j)[i]);
      } else {
        ClosedByNodes(Children(j)[i], n - 1);
      }
    }
  }

  /** The members of all trees of a list. */
  function Totals(js: seq<Json>): nat {
    if js == [] then 0 else Total(js[0]) + Totals(js[1..])
  }

  function Values(ms: seq<Member>): (r: seq<Json>)
    ensures |r| == |ms| && forall i | 0 <= i < |ms| :: r[i] == ms[i].value
  {
    seq(|ms|, i requires 0 <= i < |ms| => ms[i].value)
  }

  lemma {:induction false} MemberTotals(ms: seq<Member>)
    ensures MemberTotal(ms) == Totals(Values(ms))
    decreases |ms|
  {
    hide Total;
    if ms != [] {
      MemberTotals(ms[1..]);
      assert Values(ms)[1..] == Values(ms[1..]);
    }
  }

  lemma {:induction false} ItemTotals(items: seq<Json>)
    ensures ItemTotal(items) == Totals(items)
    decreases |items|
  {
    hide Total;
    if items != [] {
      ItemTotals(items[1..]);
    }
  }

  /** Every object counts its own members, and every node what its children count. */
  lemma TotalByNodes(j: Json)
    ensures Total(j) == (if j.Pairs? || j.Dict? then |j.members| else 0) + Totals(Children(j))
  {
    if j.Pairs? || j.Dict? {
      MemberTotals(j.members);
      assert Children(j) == Values(j.members);
      hide Totals, Values, Children;
    } else if j.List? {
      ItemTotals(j.items);
    }
  }

  /** What is admitted, node by node: nothing deeper than sixteen, every node proper, and at most sixty-four members in
      all. */
  lemma AdmittedExactly(t: Json)
    ensures Structural(t).Some? <==> ProperDownTo(t, 16) && Total(t) <= 64
  {
    StructuralExactly(t);
    ClosedByNodes(t, 16);
    hide *;
  }

  // ---------------------------------------------------------------- walking the result again

  /** A dictionary never has one key twice. */
  predicate Native(j: Json)
    decreases j
  {
    match j
    case Pairs(ms) => forall i | 0 <= i < |ms| :: Native(ms[i].value)
    case Dict(ms) => DistinctKeys(ms) && forall i | 0 <= i < |ms| :: Native(ms[i].value)
    case List(items) => forall i | 0 <= i < |items| :: Native(items[i])
    case _ => true
  }

  /** Materialising a tree without repeated keys changes neither its shape nor, a second time, anything at all. */
  lemma {:induction false} MaterialisedShape(t: Json)
    requires Closed(t) && Native(t)
    ensures var p := Materialised(t);
            Closed(p) && Height(p) == Height(t) && Total(p) == Total(t) && Materialised(p) == p
    decreases t
  {
    match t {
      case Pairs(ms) =>
        MemberShape(ms);
        PutsNothingOver(ms);
      case Dict(ms) =>
        MemberShape(ms);
        PutsNothingOver(ms);
      case List(items) =>
        ItemShape(items);
      case _ =>
    }
  }

  lemma PutsNothingOver(ms: seq<Member>)
    requires DistinctKeys(ms)
    ensures PutAll([], MaterialisedMembers(ms)) == MaterialisedMembers(ms)
  {
    var m := MaterialisedMembers(ms);
    assert [] + m == m;
    PutAllDistinct([], m);
  }

  lemma {:induction false} MemberShape(ms: seq<Member>)
    requires forall i | 0 <= i < |ms| :: Closed(ms[i].value) && Native(ms[i].value)
    ensures var m := MaterialisedMembers(ms);
            && (forall i | 0 <= i < |m| :: Closed(m[i].value))
            && MemberHeight(m) == MemberHeight(ms) && MemberTotal(m) == MemberTotal(ms)
            && MaterialisedMembers(m) == m
    decreases ms
  {
    if ms != [] {
      assert ms[0] decreases to ms[0].value;
      MaterialisedShape(ms[0].value);
      MemberShape(ms[1..]);
      var m := MaterialisedMembers(ms);
      assert m[0] == Member(ms[0].key, Materialised(ms[0].value));
      assert m[1..] == MaterialisedMembers(ms[1..]);
      assert forall i | 1 <= i < |m| :: m[i] == m[1..][i - 1];
    }
  }

  lemma {:induction false} ItemShape(items: seq<Json>)
    requires forall i | 0 <= i < |items| :: Closed(items[i]) && Native(items[i])
    ensures var m := MaterialisedItems(items);
            && (forall i | 0 <= i < |m| :: Closed(m[i]))
            && ItemHeight(m) == ItemHeight(items) && ItemTotal(m) == ItemTotal(items)
            && MaterialisedItems(m) == m
    decreases items
  {
    if items != [] {
      MaterialisedShape(items[0]);
      ItemShape(items[1..]);
      var m := MaterialisedItems(items);
      assert m[0] == Materialised(items[0]);
      assert m[1..] == MaterialisedItems(items[1..]);
      assert forall i | 1 <= i < |m| :: m[i] == m[1..][i - 1];
    }
  }

  /** The two trees hold the same data: the same names in the same order, the same items, the same leaves; only that
      objects have become dictionaries. */
  predicate SameData(t: Json, v: Json)
    decreases t
  {
    match t
    case Pairs(ms) =>
      && v.Dict? && |v.members| == |ms|
      && forall i | 0 <= i < |ms| :: v.members[i].key == ms[i].key && SameData(ms[i].value, v.members[i].value)
    case Dict(ms) =>
      && v.Dict? && |v.members| == |ms|
      && forall i | 0 <= i < |ms| :: v.members[i].key == ms[i].key && SameData(ms[i].value, v.members[i].value)
    case List(items) =>
      v.List? && |v.items| == |items| && forall i | 0 <= i < |items| :: SameData(items[i], v.items[i])
    case _ => v == t
  }

  lemma MemberAt(ms: seq<Member>, i: nat)
    requires i < |ms|
    ensures MaterialisedMembers(ms)[i].value == Materialised(ms[i].value)
    decreases ms
  {
    hide Materialised;
    if i > 0 {
      MemberAt(ms[1..], i - 1);
    }
  }

  lemma ItemAt(items: seq<Json>, i: nat)
    requires i < |items|
    ensures MaterialisedItems(items)[i] == Materialised(items[i])
    decreases items
  {
    hide Materialised;
    if i > 0 {
      ItemAt(items[1..], i - 1);
    }
  }

  lemma {:induction false} MaterialisingKeepsData(t: Json)
    requires Closed(t) && Native(t)
    ensures SameData(t, Materialised(t))
    decreases t
  {
    match t {
      case Pairs(ms) =>
        PutsNothingOver(ms);
        forall i | 0 <= i < |ms|
          ensures SameData(ms[i].value, MaterialisedMembers(ms)[i].value)
        {
          MemberAt(ms, i);
          assert ms[i] decreases to ms[i].value;
          MaterialisingKeepsData(ms[i].value);
        }
      case Dict(ms) =>
        PutsNothingOver(ms);
        forall i | 0 <= i < |ms|
          ensures SameData(ms[i].value, MaterialisedMembers(ms)[i].value)
        {
          MemberAt(ms, i);
          assert ms[i] decreases to ms[i].value;
          MaterialisingKeepsData(ms[i].value);
        }
      case List(items) =>
        forall i | 0 <= i < |items|
          ensures SameData(items[i], MaterialisedItems(items)[i])
        {
          ItemAt(items, i);
          MaterialisingKeepsData(items[i]);
        }
      case _ =>
    }
  }

  /** What an accepted walk returns is the tree it was given. */
  lemma ResultIsTheTree(t: Json)
    requires Native(t) && Structural(t).Some?
    ensures SameData(t, Structural(t).value)
  {
    StructuralExactly(t);
    MaterialisingKeepsData(t);
  }

  /** The claims that come back from the signature check are an ordinary parse of the bytes whose pairs were
      inspected.  If the inspection passed, walking the claims passes too, changes nothing, and both give the same
      value. */
  lemma ClaimsAreThePayload(t: Json)
    requires Native(t) && Structural(t).Some?
    ensures Materialised(t) == Structural(t).value
    ensures Structural(Materialised(t)) == Structural(t)
  {
    StructuralExactly(t);
    StructuralExactly(Materialised(t));
    MaterialisedShape(t);
  }

  /** The walk of the claims alone would not do: repeated names can be gone by then. */
  lemma OrdinaryParseHidesRepetition(key: Key, first: Json)
    requires key.Text?
    ensures var t := Pairs([Member(key, first)] + [Member(key, Null)]);
            Structural(t) == None && Structural(Materialised(t)) == Some(Dict([Member(key, Null)]))
  {
    var last := [Member(key, Null)];
    var ms := [Member(key, first)] + last;
    assert ms[0].key == ms[1].key && !DistinctKeys(ms);
    StructuralExactly(Pairs(ms));
    assert last[1..] == [] && ms[1..] == last;
    assert MaterialisedMembers(last) == last;
    var m := MaterialisedMembers(ms);
    assert m == [Member(key, Materialised(first))] + last;
    assert m[1..] == last;
    assert Put([], key, Materialised(first)) == [Member(key, Materialised(first))];
    var once := [Member(key, Materialised(first))];
    assert once[1..] == [] && Put(once, key, Null) == last;
    PutAllLast([], m);
    assert m[..1] == once && once[..0] == [];
    assert PutAll([], once) == once;
    StructuralExactly(Dict(last));
    assert last[0].value == Null && Height(Null) == 0 && Total(Null) == 0;
    assert MemberHeight(last) == 1 && MemberTotal(last) == 0;
    assert Put([], key, Null) == last && PutAll([], last) == last;
  }
}
