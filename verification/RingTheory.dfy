/** What consistent hashing is for: how little a join or a leave moves, and that the ring is a function of its
    members. */
module RingTheory {
  import opened HashRing

  // ---- the slice -----------------------------------------------------------

  /** The sorted slice carries no more information than the owner map. */
  lemma {:induction false} SliceIsDetermined(a: seq<Pos>, b: seq<Pos>)
    requires Ascending(a) && Ascending(b)
    requires forall p :: p in a <==> p in b
    ensures a == b
  {
    if a != [] {
      assert a[0] in b;
    }
    if b != [] {
      assert b[0] in a;
      var a', b' := a[1..], b[1..];
      assert a == [a[0]] + a' && b == [b[0]] + b';
      forall p
        ensures p in a' <==> p in b'
      {
        assert p in a' ==> p > a[0];
        assert p in b' ==> p > b[0];
        assert p in a <==> p == a[0] || p in a';
        assert p in b <==> p == b[0] || p in b';
      }
      SliceIsDetermined(a', b');
    }
  }

  // ---- minimal disruption --------------------------------------------------

  /** A join moves a key to the newcomer or not at all. */
  lemma JoinMovesOnlyToNewcomer(o: Owners, n: NodeId, positions: set<Pos>, h: Pos)
    requires o != map[]
    ensures Added(o, n, positions) != map[]
    ensures OwnerOf(Added(o, n, positions), h) == OwnerOf(o, h) || OwnerOf(Added(o, n, positions), h) == n
  {
    var p :| p in o;
    var o' := Added(o, n, positions);
    assert p in o';
    NearestExists(o', h);
    var q :| Nearest(o', h, q);
    OwnerIsNearest(o', h, q);
    if q in o {
      assert Nearest(o, h, q) by {
        forall x | x in o
          ensures Dist(h, q) <= Dist(h, x)
        {
          assert x in o';
        }
      }
      OwnerIsNearest(o, h, q);
    }
  }

  /** A leave moves exactly the keys the leaver owned, and leaves it none. */
  lemma LeaveMovesOnlyOwnKeys(o: Owners, n: NodeId, h: Pos)
    requires Removed(o, n) != map[]
    ensures o != map[]
    ensures n !in Removed(o, n).Values
    ensures if OwnerOf(o, h) == n then OwnerOf(Removed(o, n), h) != n else OwnerOf(Removed(o, n), h) == OwnerOf(o, h)
  {
    var o' := Removed(o, n);
    var x :| x in o';
    assert x in o;
    NearestExists(o, h);
    var p :| Nearest(o, h, p);
    OwnerIsNearest(o, h, p);
    if o[p] != n {
      assert Nearest(o', h, p);
      OwnerIsNearest(o', h, p);
    }
  }

  /** A join undone by a leave restores the ring exactly when the node owned nothing before. */
  lemma LeaveUndoesJoinIff(o: Owners, n: NodeId, positions: set<Pos>)
    ensures Removed(Added(o, n, positions), n) == o <==> n !in o.Values
  {
    var back := Removed(Added(o, n, positions), n);
    if n in o.Values {
      var p :| p in o && o[p] == n;
      assert p !in back;
    } else {
      assert forall p :: p in o ==> o[p] in o.Values;
      assert back == o;
    }
  }

  // ---- exact relocation accounting -----------------------------------------

  /** The keys whose owner differs between two rings. */
  ghost function Moved(hash: Hashing, keys: set<string>, o: Owners, o': Owners): set<string>
    requires o != map[] && o' != map[]
  {
    set k | k in keys && OwnerOf(o, hash.key(k)) != OwnerOf(o', hash.key(k))
  }

  ghost function Owned(hash: Hashing, keys: set<string>, o: Owners, n: NodeId): set<string>
    requires o != map[]
  {
    set k | k in keys && OwnerOf(o, hash.key(k)) == n
  }

  lemma LeaveRelocatesOwned(hash: Hashing, keys: set<string>, o: Owners, n: NodeId)
    requires o != map[] && Removed(o, n) != map[]
    ensures Moved(hash, keys, o, Removed(o, n)) == Owned(hash, keys, o, n)
  {
    forall k | k in keys
      ensures k in Moved(hash, keys, o, Removed(o, n)) <==> k in Owned(hash, keys, o, n)
    {
      LeaveMovesOnlyOwnKeys(o, n, hash.key(k));
    }
  }

  lemma JoinRelocatesToNewcomer(hash: Hashing, keys: set<string>, o: Owners, n: NodeId, positions: set<Pos>)
    requires o != map[] && n !in o.Values
    ensures Added(o, n, positions) != map[]
    ensures Moved(hash, keys, o, Added(o, n, positions)) == Owned(hash, keys, Added(o, n, positions), n)
  {
    var p :| p in o;
    assert p in Added(o, n, positions);
    forall k | k in keys
      ensures k in Moved(hash, keys, o, Added(o, n, positions)) <==> k in Owned(hash, keys, Added(o, n, positions), n)
    {
      JoinMovesOnlyToNewcomer(o, n, positions, hash.key(k));
      OwnerIsAnOwner(o, hash.key(k));
    }
  }

  /** The list Nodes returns: every owner, once. */
  ghost predicate Lists(nodes: seq<NodeId>, o: Owners) {
    && (forall n :: n in nodes <==> n in o.Values)
    && (forall i, j :: 0 <= i < j < |nodes| ==> nodes[i] != nodes[j])
  }

  function Sum(s: seq<nat>): nat {
    if s == [] then 0 else Sum(s[..|s| - 1]) + s[|s| - 1]
  }

  /** For each node in turn, how many keys its departure alone would move. */
  ghost function Relocations(hash: Hashing, keys: set<string>, o: Owners, nodes: seq<NodeId>): (counts: seq<nat>)
    requires o != map[] && forall n :: n in nodes ==> Removed(o, n) != map[]
    ensures |counts| == |nodes|
    ensures forall i :: 0 <= i < |nodes| ==> counts[i] == |Moved(hash, keys, o, Removed(o, nodes[i]))|
  {
    if nodes == [] then []
    else
      var rest, last := nodes[..|nodes| - 1], nodes[|nodes| - 1];
      Relocations(hash, keys, o, rest) + [|Moved(hash, keys, o, Removed(o, last))|]
  }

  ghost function Fiber(f: string -> NodeId, keys: set<string>, n: NodeId): set<string> {
    set k | k in keys && f(k) == n
  }

  /** Counting keys by where f sends them. */
  lemma {:induction false} FibersSum(f: string -> NodeId, keys: set<string>, nodes: seq<NodeId>, counts: seq<nat>)
    requires |counts| == |nodes|
    requires forall i :: 0 <= i < |nodes| ==> counts[i] == |Fiber(f, keys, nodes[i])|
    requires forall i, j :: 0 <= i < j < |nodes| ==> nodes[i] != nodes[j]
    ensures Sum(counts) == |set k | k in keys && f(k) in nodes|
  {
    var all := set k | k in keys && f(k) in nodes;
    if nodes == [] {
      assert all == {};
    } else {
      var rest, last := nodes[..|nodes| - 1], nodes[|nodes| - 1];
      FibersSum(f, keys, rest, counts[..|nodes| - 1]);
      var before := set k | k in keys && f(k) in rest;
      assert forall n :: n in nodes <==> n in rest || n == last;
      assert before !! Fiber(f, keys, last);
      assert all == before + Fiber(f, keys, last);
    }
  }

  /** Some term of a sum is at most the average. */
  lemma {:induction false} SomeTermIsSmall(s: seq<nat>) returns (i: nat)
    requires s != []
    ensures i < |s| && |s| * s[i] <= Sum(s)
  {
    var rest, last := s[..|s| - 1], s[|s| - 1];
    i := |s| - 1;
    if rest != [] {
      var j := SomeTermIsSmall(rest);
      var x := rest[j];
      assert |s| * x == |rest| * x + x && |s| * last == |rest| * last + last;
      if x <= last {
        i := j;
      } else {
        assert |rest| * last <= |rest| * x;
      }
    }
  }

  lemma TwoOwnersSurvive(o: Owners, nodes: seq<NodeId>)
    requires Lists(nodes, o) && |nodes| >= 2
    ensures o != map[] && forall n :: n in nodes ==> Removed(o, n) != map[]
  {
    forall n | n in nodes
      ensures Removed(o, n) != map[]
    {
      var other := if nodes[0] == n then nodes[1] else nodes[0];
      assert other in nodes && other != n;
      var p :| p in o && o[p] == other;
      assert p in Removed(o, n);
    }
    assert nodes[0] in o.Values;
  }

  /** Over all nodes, the keys their single departures would move add up to exactly the number of keys. */
  lemma RelocationsSumToKeys(hash: Hashing, keys: set<string>, o: Owners, nodes: seq<NodeId>)
    requires Lists(nodes, o) && |nodes| >= 2
    ensures o != map[] && forall n :: n in nodes ==> Removed(o, n) != map[]
    ensures Sum(Relocations(hash, keys, o, nodes)) == |keys|
  {
    TwoOwnersSurvive(o, nodes);
    var counts := Relocations(hash, keys, o, nodes);
    var f := (k: string) => OwnerOf(o, hash.key(k));
    forall i | 0 <= i < |nodes|
      ensures counts[i] == |Fiber(f, keys, nodes[i])|
    {
      LeaveRelocatesOwned(hash, keys, o, nodes[i]);
      assert Fiber(f, keys, nodes[i]) == Owned(hash, keys, o, nodes[i]);
    }
    FibersSum(f, keys, nodes, counts);
    forall k | k in keys
      ensures f(k) in nodes
    {
      OwnerIsAnOwner(o, hash.key(k));
    }
    assert (set k | k in keys && f(k) in nodes) == keys;
  }

  /** So some node's departure moves at most one N-th of the keys. */
  lemma SomeLeaveMovesAnNth(hash: Hashing, keys: set<string>, o: Owners, nodes: seq<NodeId>)
    returns (n: NodeId)
    requires Lists(nodes, o) && |nodes| >= 2
    ensures n in nodes && o != map[] && Removed(o, n) != map[]
    ensures |nodes| * |Moved(hash, keys, o, Removed(o, n))| <= |keys|
  {
    RelocationsSumToKeys(hash, keys, o, nodes);
    var i := SomeTermIsSmall(Relocations(hash, keys, o, nodes));
    n := nodes[i];
  }

  // ---- histories -----------------------------------------------------------

  datatype Change = Join(n: NodeId) | Leave(n: NodeId)

  function Changed(o: Owners, c: Change, hash: Hashing, replicas: nat): Owners {
    match c
    case Join(n) => Added(o, n, Positions(hash, n, replicas))
    case Leave(n) => Removed(o, n)
  }

  /** The ring after a history of joins and leaves, repeats included. */
  function Replay(history: seq<Change>, hash: Hashing, replicas: nat): Owners {
    if history == [] then map[]
    else Changed(Replay(history[..|history| - 1], hash, replicas), history[|history| - 1], hash, replicas)
  }

  /** Who is in after the history. */
  function MembersOf(history: seq<Change>): set<NodeId> {
    if history == [] then {}
    else
      var last := history[|history| - 1];
      var before := MembersOf(history[..|history| - 1]);
      if last.Join? then before + {last.n} else before - {last.n}
  }

  /** Every node that joins is one of these; leaves may name anyone. */
  predicate JoinsAmong(history: seq<Change>, nodes: set<NodeId>) {
    forall k :: 0 <= k < |history| && history[k].Join? ==> history[k].n in nodes
  }

  /** No two of these nodes share a position. */
  ghost predicate NoCollision(hash: Hashing, replicas: nat, nodes: set<NodeId>) {
    forall n, m, p :: n in nodes && m in nodes && p in Positions(hash, n, replicas) && p in Positions(hash, m, replicas)
                      ==> n == m
  }

  /** o is the ring in which each member holds all its positions. */
  ghost predicate IsRingOf(o: Owners, members: set<NodeId>, hash: Hashing, replicas: nat) {
    && (forall p :: p in o ==> o[p] in members && p in Positions(hash, o[p], replicas))
    && (forall n, p :: n in members && p in Positions(hash, n, replicas) ==> p in o)
  }

  /** A hash under which any given nodes, as long as the ring has room for them, have all their replicas apart. */
  lemma CollisionsAreAvoidable(nodes: seq<NodeId>, replicas: nat) returns (hash: Hashing)
    requires |nodes| * replicas <= SPAN
    ensures NoCollision(hash, replicas, set n | n in nodes)
    ensures forall n, i, j :: n in nodes && 0 <= i < j < replicas ==> hash.replica(n, i) != hash.replica(n, j)
  {
    hash := Hashing((k: string) => 0, (n: NodeId, i: nat) => Slot(nodes, replicas, n, i));
    forall n, i: nat, m, j: nat | n in nodes && m in nodes && i < replicas && j < replicas
      ensures hash.replica(n, i) == hash.replica(m, j) ==> n == m && i == j
    {
      SlotsAreApart(nodes, replicas, n, i, m, j);
    }
  }

  function IndexOf(nodes: seq<NodeId>, n: NodeId): (k: nat)
    ensures n in nodes ==> k < |nodes| && nodes[k] == n
  {
    if nodes == [] || nodes[0] == n then 0 else 1 + IndexOf(nodes[1..], n)
  }

  /** Replica i of the k-th node at position k * replicas + i. */
  function Slot(nodes: seq<NodeId>, replicas: nat, n: NodeId, i: nat): Pos {
    var p := IndexOf(nodes, n) * replicas + i;
    if p < SPAN then p else 0
  }

  lemma SlotsAreApart(nodes: seq<NodeId>, replicas: nat, n: NodeId, i: nat, m: NodeId, j: nat)
    requires |nodes| * replicas <= SPAN && n in nodes && m in nodes && i < replicas && j < replicas
    ensures Slot(nodes, replicas, n, i) == Slot(nodes, replicas, m, j) ==> n == m && i == j
  {
    RowsAreApart(|nodes|, IndexOf(nodes, n), replicas, i, IndexOf(nodes, m), j);
  }

  lemma RowsAreApart(rows: nat, k: nat, width: nat, i: nat, l: nat, j: nat)
    requires k < rows && l < rows && i < width && j < width
    ensures k * width + i < rows * width && l * width + j < rows * width
    ensures k * width + i == l * width + j ==> k == l && i == j
  {
    RowEndsBefore(k, rows, width, i);
    RowEndsBefore(l, rows, width, j);
    if k < l {
      RowEndsBefore(k, l, width, i);
    } else if l < k {
      RowEndsBefore(l, k, width, j);
    }
  }

  lemma RowEndsBefore(k: nat, l: nat, width: nat, i: nat)
    requires k < l && i < width
    ensures k * width + i < l * width
  {
    var between := l - k - 1;
    assert l * width == k * width + width + between * width;
    assert between * width >= 0;
  }

  lemma ChangeKeepsRing(
    o: Owners, members: set<NodeId>, c: Change, hash: Hashing, replicas: nat, nodes: set<NodeId>)
    requires NoCollision(hash, replicas, nodes) && IsRingOf(o, members, hash, replicas)
    requires members <= nodes && (c.Join? ==> c.n in nodes)
    ensures IsRingOf(Changed(o, c, hash, replicas), if c.Join? then members + {c.n}
            else members - {c.n}, hash, replicas)
  {
    var o' := Changed(o, c, hash, replicas);
    var members' := if c.Join? then members + {c.n} else members - {c.n};
    forall n, p | n in members' && p in Positions(hash, n, replicas)
      ensures p in o'
    {
      if c.Leave? {
        assert n != c.n && n in members && p in o;
        assert p in Positions(hash, o[p], replicas);
      }
    }
  }

  /** Without collisions among the nodes that ever join, a history gives the ring of its members. */
  lemma {:induction false} HistoryGivesRing(history: seq<Change>, hash: Hashing, replicas: nat, nodes: set<NodeId>)
    requires NoCollision(hash, replicas, nodes) && JoinsAmong(history, nodes)
    ensures MembersOf(history) <= nodes
    ensures IsRingOf(Replay(history, hash, replicas), MembersOf(history), hash, replicas)
  {
    if history != [] {
      var before := history[..|history| - 1];
      HistoryGivesRing(before, hash, replicas, nodes);
      ChangeKeepsRing(Replay(before, hash, replicas), MembersOf(before), history[|history| - 1], hash, replicas, nodes);
    }
  }

  lemma RingIsUnique(a: Owners, b: Owners, members: set<NodeId>, hash: Hashing, replicas: nat)
    requires NoCollision(hash, replicas, members)
    requires IsRingOf(a, members, hash, replicas) && IsRingOf(b, members, hash, replicas)
    ensures a == b
  {
    forall p
      ensures p in a <==> p in b
      ensures p in a && p in b ==> a[p] == b[p]
    {
    }
  }

  lemma EqualMembersEqualRing(
    a: seq<Change>, b: seq<Change>, hash: Hashing, replicas: nat, nodes: set<NodeId>)
    requires NoCollision(hash, replicas, nodes) && JoinsAmong(a, nodes) && JoinsAmong(b, nodes)
    requires MembersOf(a) == MembersOf(b)
    ensures Replay(a, hash, replicas) == Replay(b, hash, replicas)
  {
    HistoryGivesRing(a, hash, replicas, nodes);
    HistoryGivesRing(b, hash, replicas, nodes);
    RingIsUnique(Replay(a, hash, replicas), Replay(b, hash, replicas), MembersOf(a), hash, replicas);
  }

  /** Over the histories in which these nodes join, the ring depends on the final members alone. */
  ghost predicate HistoryFree(hash: Hashing, replicas: nat, nodes: set<NodeId>) {
    forall a, b :: JoinsAmong(a, nodes) && JoinsAmong(b, nodes) && MembersOf(a) == MembersOf(b)
                   ==> Replay(a, hash, replicas) == Replay(b, hash, replicas)
  }

  lemma TwoJoins(n: NodeId, m: NodeId, p: Pos, hash: Hashing, replicas: nat)
    requires p in Positions(hash, n, replicas)
    ensures MembersOf([Join(n), Join(m)]) == {n, m}
    ensures p in Replay([Join(n), Join(m)], hash, replicas) && Replay([Join(n), Join(m)], hash, replicas)[p] == n
  {
    var two := [Join(n), Join(m)];
    assert two[..1] == [Join(n)];
    assert [Join(n)][..0] == [];
    assert MembersOf([Join(n)]) == {n};
    assert Replay([Join(n)], hash, replicas) == Added(map[], n, Positions(hash, n, replicas));
  }

  /** The ring of some nodes is a function of who is in, whatever the history, exactly when no two of them collide. */
  lemma HistoryFreeIffNoCollision(hash: Hashing, replicas: nat, nodes: set<NodeId>)
    ensures HistoryFree(hash, replicas, nodes) <==> NoCollision(hash, replicas, nodes)
  {
    if NoCollision(hash, replicas, nodes) {
      forall a, b | JoinsAmong(a, nodes) && JoinsAmong(b, nodes) && MembersOf(a) == MembersOf(b)
        ensures Replay(a, hash, replicas) == Replay(b, hash, replicas)
      {
        EqualMembersEqualRing(a, b, hash, replicas, nodes);
      }
    } else {
      var n, m, p :|
        n in nodes && m in nodes && p in Positions(hash, n, replicas) && p in Positions(hash, m, replicas) && n != m;
      TwoJoins(n, m, p, hash, replicas);
      TwoJoins(m, n, p, hash, replicas);
      assert MembersOf([Join(n), Join(m)]) == MembersOf([Join(m), Join(n)]);
      assert JoinsAmong([Join(n), Join(m)], nodes) && JoinsAmong([Join(m), Join(n)], nodes);
    }
  }
}
