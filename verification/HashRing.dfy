/** internal/hashring: virtual nodes on a 64-bit ring, kept as a sorted slice and an owner map. */
module HashRing {

  type NodeId = string

  const SPAN: nat := 0x1_0000_0000_0000_0000
  const DEFAULT_VIRTUAL_NODES: nat := 150

  /** A ring position: a uint64. */
  type Pos = p: nat | p < SPAN

  type Owners = map<Pos, NodeId>

  /** The 64-bit hash of keys and of node replicas; nothing is assumed of it. */
  datatype Hashing = Hashing(key: string -> Pos, replica: (NodeId, nat) -> Pos)

  predicate Ascending(s: seq<Pos>) {
    forall i, j :: 0 <= i < j < |s| ==> s[i] < s[j]
  }

  /** The positions node n hashes to. */
  function Positions(hash: Hashing, n: NodeId, replicas: nat): set<Pos> {
    set i | 0 <= i < replicas :: hash.replica(n, i)
  }

  /** The owner map after n joins: first writer wins on every position. */
  function Added(o: Owners, n: NodeId, positions: set<Pos>): Owners {
    map p | p in o.Keys + positions :: if p in o then o[p] else n
  }

  /** The owner map after n leaves. */
  function Removed(o: Owners, n: NodeId): Owners {
    map p | p in o && o[p] != n :: o[p]
  }

  /** Every position on the ring is one its owner hashes to. */
  ghost predicate Honest(o: Owners, hash: Hashing, replicas: nat) {
    forall p :: p in o ==> p in Positions(hash, o[p], replicas)
  }

  /** Clockwise distance on the ring. */
  function Dist(from: Pos, to: Pos): nat {
    (to - from) % SPAN
  }

  lemma DistCases(from: Pos, to: Pos)
    ensures Dist(from, to) == if to >= from then to - from else to + SPAN - from
  {
    if to < from {
      assert (to - from) % SPAN == (to - from + SPAN) % SPAN;
    }
  }

  /** p is the first position at or after h going clockwise. */
  ghost predicate Nearest(o: Owners, h: Pos, p: Pos) {
    p in o && forall q :: q in o ==> Dist(h, p) <= Dist(h, q)
  }

  lemma {:induction false} NearestInSet(s: set<Pos>, h: Pos) returns (p: Pos)
    requires s != {}
    ensures p in s && forall q :: q in s ==> Dist(h, p) <= Dist(h, q)
    decreases s
  {
    p :| p in s;
    if s != {p} {
      var r := NearestInSet(s - {p}, h);
      assert forall q :: q in s ==> q == p || q in s - {p};
      if Dist(h, r) < Dist(h, p) {
        p := r;
      }
    }
  }

  lemma NearestExists(o: Owners, h: Pos)
    requires o != map[]
    ensures exists p :: Nearest(o, h, p)
  {
    var p := NearestInSet(o.Keys, h);
    assert Nearest(o, h, p);
  }

  lemma NearestIsUnique(o: Owners, h: Pos, p: Pos, q: Pos)
    requires Nearest(o, h, p) && Nearest(o, h, q)
    ensures p == q
  {
    DistCases(h, p);
    DistCases(h, q);
  }

  /** The node owning hash value h: whoever owns the nearest position. */
  ghost function OwnerOf(o: Owners, h: Pos): (n: NodeId)
    requires o != map[]
    ensures exists p :: Nearest(o, h, p) && o[p] == n
  {
    NearestExists(o, h);
    var p :| Nearest(o, h, p);
    o[p]
  }

  lemma OwnerIsNearest(o: Owners, h: Pos, p: Pos)
    requires Nearest(o, h, p)
    ensures OwnerOf(o, h) == o[p]
  {
    var q :| Nearest(o, h, q) && o[q] == OwnerOf(o, h);
    NearestIsUnique(o, h, p, q);
  }

  lemma OwnerIsAnOwner(o: Owners, h: Pos)
    requires o != map[]
    ensures OwnerOf(o, h) in o.Values
  {
    NearestExists(o, h);
    var p :| Nearest(o, h, p);
    OwnerIsNearest(o, h, p);
  }

  /** sort.Search for the first element not below h. */
  method Search(s: seq<Pos>, h: Pos) returns (i: nat)
    requires Ascending(s)
    ensures i <= |s|
    ensures forall k :: 0 <= k < i ==> s[k] < h
    ensures forall k :: i <= k < |s| ==> s[k] >= h
  {
    i := 0;
    var j := |s|;
    while i < j
      invariant 0 <= i <= j <= |s|
      invariant forall k :: 0 <= k < i ==> s[k] < h
      invariant forall k :: j <= k < |s| ==> s[k] >= h
    {
      var m := (i + j) / 2;
      if s[m] < h {
        i := m + 1;
      } else {
        j := m;
      }
    }
  }

  lemma SplicedHolds(s: seq<Pos>, i: nat, h: Pos, r: seq<Pos>)
    requires i <= |s| && r == s[..i] + [h] + s[i..]
    ensures multiset(r) == multiset(s) + multiset{h}
    ensures forall p :: p in r <==> p in s || p == h
  {
    assert multiset(s) == multiset(s[..i] + s[i..]) by {
      assert s == s[..i] + s[i..];
    }
    forall p
      ensures p in r <==> p in s || p == h
    {
      assert p in r <==> p in multiset(r);
      assert p in s <==> p in multiset(s);
    }
  }

  lemma SplicedAscends(s: seq<Pos>, i: nat, h: Pos, r: seq<Pos>)
    requires Ascending(s) && i <= |s| && r == s[..i] + [h] + s[i..]
    requires (forall k :: 0 <= k < i ==> s[k] < h) && (forall k :: i <= k < |s| ==> s[k] >= h)
    ensures forall j, k :: 0 <= j < k < |r| ==> r[j] <= r[k]
    ensures h !in s ==> Ascending(r)
  {
    forall j, k | 0 <= j < k < |r|
      ensures r[j] <= r[k] && (h !in s ==> r[j] < r[k])
    {
      assert r[j] == if j < i then s[j] else if j == i then h else s[j - 1];
      assert r[k] == if k < i then s[k] else if k == i then h else s[k - 1];
    }
  }

  method InsertSorted(s: seq<Pos>, h: Pos) returns (r: seq<Pos>)
    requires Ascending(s)
    ensures multiset(r) == multiset(s) + multiset{h}
    ensures forall i, j :: 0 <= i < j < |r| ==> r[i] <= r[j]
    ensures h !in s ==> Ascending(r)
    ensures forall p :: p in r <==> p in s || p == h
  {
    var i := Search(s, h);
    r := s + [0];                                  // append
    r := r[..i + 1] + r[i..|r| - 1];               // copy
    r := r[i := h];
    assert r == s[..i] + [h] + s[i..];
    SplicedHolds(s, i, h, r);
    SplicedAscends(s, i, h, r);
  }

  method RemoveSorted(s: seq<Pos>, h: Pos) returns (r: seq<Pos>)
    requires Ascending(s)
    ensures Ascending(r)
    ensures forall p :: p in r <==> p in s && p != h
  {
    var i := Search(s, h);
    r := s;
    if i < |s| && s[i] == h {
      r := s[..i] + s[i + 1..];
      forall p
        ensures p in r <==> p in s && p != h
      {
        assert s == s[..i] + [h] + s[i + 1..];
      }
    }
  }

  class Ring {
    const hash: Hashing
    const virtualNodes: nat
    var hashes: seq<Pos>
    var owners: Owners

    /** The slice is the owner map's key set in ascending order. */
    ghost predicate Valid()
      reads this
    {
      && Ascending(hashes)
      && (forall p :: p in hashes <==> p in owners)
      && Honest(owners, hash, virtualNodes)
    }

    constructor (hash: Hashing, virtualNodes: int)
      ensures Valid() && owners == map[] && this.hash == hash
      ensures this.virtualNodes == if virtualNodes <= 0 then DEFAULT_VIRTUAL_NODES else virtualNodes
    {
      this.hash := hash;
      this.virtualNodes := if virtualNodes <= 0 then DEFAULT_VIRTUAL_NODES else virtualNodes;
      hashes := [];
      owners := map[];
    }

    method AddNode(n: NodeId)
      requires Valid()
      modifies this
      ensures Valid()
      ensures owners == Added(old(owners), n, Positions(hash, n, virtualNodes))
      ensures forall i :: 0 <= i < virtualNodes && hash.replica(n, i) !in old(owners) ==>
                hash.replica(n, i) in owners && owners[hash.replica(n, i)] == n
      ensures forall p :: p in old(owners) ==> p in owners && owners[p] == old(owners)[p]
      ensures forall p :: p in owners && p !in old(owners) ==>
                exists i :: 0 <= i < virtualNodes && p == hash.replica(n, i)
    {
      assert owners == Added(owners, n, Positions(hash, n, 0));
      for i := 0 to virtualNodes
        invariant Ascending(hashes) && forall p :: p in hashes <==> p in owners
        invariant owners == Added(old(owners), n, Positions(hash, n, i))
      {
        PositionsGrow(hash, n, i);
        var h := hash.replica(n, i);
        AddedGrows(old(owners), n, Positions(hash, n, i), h);
        if h in owners {
          continue;
        }
        owners := owners[h := n];
        hashes := InsertSorted(hashes, h);
      }
    }

    method RemoveNode(n: NodeId)
      requires Valid()
      modifies this
      ensures Valid()
      ensures owners == Removed(old(owners), n)
      ensures forall p :: p in owners <==> p in old(owners) && old(owners)[p] != n
      ensures forall p :: p in owners ==> owners[p] == old(owners)[p]
    {
      assert owners == Without(owners, n, Positions(hash, n, 0));
      for i := 0 to virtualNodes
        invariant Ascending(hashes) && forall p :: p in hashes <==> p in owners
        invariant owners == Without(old(owners), n, Positions(hash, n, i))
      {
        PositionsGrow(hash, n, i);
        var h := hash.replica(n, i);
        WithoutGrows(old(owners), n, Positions(hash, n, i), h);
        // a missing key reads as the empty string
        if (if h in owners then owners[h] else "") != n {
          continue;
        }
        owners := owners - {h};
        hashes := RemoveSorted(hashes, h);
      }
    }

    /** Lookup finds the owner of the nearest position, or that there is none. */
    method Lookup(key: string) returns (n: NodeId, ok: bool)
      requires Valid()
      ensures ok <==> owners != map[]
      ensures ok ==> n == OwnerOf(owners, hash.key(key))
    {
      if |hashes| == 0 {
        assert owners == map[];
        return "", false;
      }
      assert hashes[0] in owners;
      var h := hash.key(key);
      var i := Search(hashes, h);
      if i == |hashes| {
        i := 0;
      }
      FirstAtOrAfterIsNearest(hashes, owners, h, i);
      return owners[hashes[i]], true;
    }

    /** Nodes lists each owner once. */
    method Nodes() returns (nodes: seq<NodeId>)
      ensures forall n :: n in nodes <==> n in owners.Values
      ensures forall i, j :: 0 <= i < j < |nodes| ==> nodes[i] != nodes[j]
    {
      nodes := [];
      var left := owners.Keys;
      while left != {}
        invariant left <= owners.Keys
        invariant forall n :: n in nodes <==> exists p :: p in owners.Keys - left && owners[p] == n
        invariant forall i, j :: 0 <= i < j < |nodes| ==> nodes[i] != nodes[j]
        decreases left
      {
        var p :| p in left;
        if owners[p] !in nodes {
          nodes := nodes + [owners[p]];
        }
        left := left - {p};
      }
    }
  }

  /** The owner map once n has been taken off some of its positions. */
  function Without(o: Owners, n: NodeId, positions: set<Pos>): Owners {
    map p | p in o && !(p in positions && o[p] == n) :: o[p]
  }

  lemma AddedGrows(o: Owners, n: NodeId, positions: set<Pos>, h: Pos)
    ensures var some := Added(o, n, positions);
            Added(o, n, positions + {h}) == if h in some then some else some[h := n]
  {
  }

  lemma WithoutGrows(o: Owners, n: NodeId, positions: set<Pos>, h: Pos)
    ensures var some := Without(o, n, positions);
            Without(o, n, positions + {h}) == if h in some && some[h] == n then some - {h} else some
  {
  }

  lemma PositionsGrow(hash: Hashing, n: NodeId, i: nat)
    ensures Positions(hash, n, i + 1) == Positions(hash, n, i) + {hash.replica(n, i)}
  {
  }

  /** The index binary search and wrap-around arrive at. */
  lemma FirstAtOrAfterIsNearest(hashes: seq<Pos>, o: Owners, h: Pos, i: nat)
    requires Ascending(hashes) && (forall p :: p in hashes <==> p in o) && i < |hashes|
    requires || (hashes[i] >= h && forall k :: 0 <= k < i ==> hashes[k] < h)
             || (i == 0 && forall k :: 0 <= k < |hashes| ==> hashes[k] < h)
    ensures Nearest(o, h, hashes[i]) && o != map[] && OwnerOf(o, h) == o[hashes[i]]
  {
    forall q | q in o
      ensures Dist(h, hashes[i]) <= Dist(h, q)
    {
      var k :| 0 <= k < |hashes| && hashes[k] == q;
      DistCases(h, hashes[i]);
      DistCases(h, q);
    }
    OwnerIsNearest(o, h, hashes[i]);
  }
}
