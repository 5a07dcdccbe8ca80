/** internal/router: local or forward, and what that decision, taken again at every hop, does to a request. */
module Routing {
  import opened Sets
  import opened StoreSpec
  import opened HashRing
  import opened RingTheory

  type Addr = string

  /** What one node believes: what its ring's Lookup answers, and the addresses gossip has told it. */
  datatype View = View(lookup: Pos -> Option<NodeId>, addresses: map<NodeId, Addr>)

  datatype Decision = Local | Forward(to: NodeId, addr: Addr) | NoOwner | NoAddress(owner: NodeId)

  /** Route, and RouteOfferResponse, for the cell hashing to h. */
  function Route(local: NodeId, v: View, h: Pos): Decision {
    match v.lookup(h)
    case None => NoOwner
    case Some(owner) =>
      if owner == local then Local
      else if owner !in v.addresses then NoAddress(owner)
      else Forward(owner, v.addresses[owner])
  }

  /** The nodes up, with their views, and who answers at each address. */
  datatype Cluster = Cluster(nodes: map<NodeId, View>, listening: map<Addr, NodeId>)

  datatype Delivery = Handled(node: NodeId) | Rejected | Unreachable | StillForwarding(at: NodeId)

  /** A request at a node, allowed a number of forwards: the receiving server routes it afresh each time. */
  function Deliver(c: Cluster, at: NodeId, h: Pos, forwards: nat): Delivery
    decreases forwards
  {
    if at !in c.nodes then Unreachable
    else
      match Route(at, c.nodes[at], h)
      case Local => Handled(at)
      case NoOwner => Rejected
      case NoAddress(_) => Rejected
      case Forward(_, addr) =>
        if addr !in c.listening then Unreachable
        else if forwards == 0 then StillForwarding(at)
        else Deliver(c, c.listening[addr], h, forwards - 1)
  }

  /** Whom n takes for the owner. */
  function OwnerSeenBy(c: Cluster, n: NodeId, h: Pos): NodeId {
    if n in c.nodes && c.nodes[n].lookup(h).Some? then c.nodes[n].lookup(h).value else n
  }

  /** n sees an owner, which is up and can be reached from n. */
  predicate SeesOwner(c: Cluster, n: NodeId, h: Pos)
    requires n in c.nodes
  {
    && c.nodes[n].lookup(h).Some?
    && var w := c.nodes[n].lookup(h).value;
       && w in c.nodes && w in c.nodes[n].addresses
       && c.nodes[n].addresses[w] in c.listening && c.listening[c.nodes[n].addresses[w]] == w
  }

  predicate Connected(c: Cluster, h: Pos) {
    forall n {:trigger SeesOwner(c, n, h)} :: n in c.nodes ==> SeesOwner(c, n, h)
  }

  /** v's answers are those of the ring o. */
  ghost predicate Answers(v: View, o: Owners) {
    forall h :: v.lookup(h) == if o == map[] then None else Some(OwnerOf(o, h))
  }

  /** A node handles what it owns and sends anything else to the owner it sees. */
  lemma OneHop(c: Cluster, e: NodeId, h: Pos, forwards: nat)
    requires Connected(c, h) && e in c.nodes
    ensures var w := OwnerSeenBy(c, e, h);
            && w in c.nodes
            && Deliver(c, e, h, forwards) == (if w == e then Handled(e)
                                              else if forwards == 0 then StillForwarding(e)
                                              else Deliver(c, w, h, forwards - 1))
  {
    assert SeesOwner(c, e, h);
  }

  /** A node that cannot tell where to send the request: it knows no owner, or not the owner's address. */
  predicate Blind(c: Cluster, n: NodeId, h: Pos)
    requires n in c.nodes
  {
    var owner := c.nodes[n].lookup(h);
    owner.None? || (owner.value != n && owner.value !in c.nodes[n].addresses)
  }

  /** A node that sends the request to an address where no node answers. */
  predicate Misled(c: Cluster, n: NodeId, h: Pos)
    requires n in c.nodes && !Blind(c, n, h)
  {
    var owner := c.nodes[n].lookup(h).value;
    owner != n && !(c.nodes[n].addresses[owner] in c.listening && c.listening[c.nodes[n].addresses[owner]] in c.nodes)
  }

  /** Whatever the views: only a node that takes itself for the owner handles a request, only a node without an owner or
      an address rejects it, and it is lost only at a stale address. */
  lemma {:induction false} DeliveryHasCause(c: Cluster, at: NodeId, h: Pos, forwards: nat)
    requires at in c.nodes
    ensures match Deliver(c, at, h, forwards)
            case Handled(n) => n in c.nodes && c.nodes[n].lookup(h) == Some(n)
            case Rejected => exists n :: n in c.nodes && Blind(c, n, h)
            case Unreachable => exists n :: n in c.nodes && !Blind(c, n, h) && Misled(c, n, h)
            case StillForwarding(n) => n in c.nodes && !Blind(c, n, h) && c.nodes[n].lookup(h) != Some(n)
    ensures Blind(c, at, h) ==> Deliver(c, at, h, forwards) == Rejected
    ensures c.nodes[at].lookup(h) == Some(at) ==> Deliver(c, at, h, forwards) == Handled(at)
    decreases forwards
  {
    if Blind(c, at, h) {
      assert Deliver(c, at, h, forwards) == Rejected;
    } else if !Misled(c, at, h) && c.nodes[at].lookup(h).value != at && forwards > 0 {
      DeliveryHasCause(c, c.listening[c.nodes[at].addresses[c.nodes[at].lookup(h).value]], h, forwards - 1);
    }
  }

  /** Every entry node gets the request to one and the same handler with at most one forward exactly when all nodes see
      the same owner. */
  lemma SameHandlerIffSameOwner(c: Cluster, h: Pos, w: NodeId)
    requires Connected(c, h)
    ensures (forall e :: e in c.nodes ==> Deliver(c, e, h, 1) == Handled(w))
            <==> (forall e :: e in c.nodes ==> OwnerSeenBy(c, e, h) == w)
  {
    forall e | e in c.nodes
      ensures Deliver(c, e, h, 1) == Handled(w) ==> OwnerSeenBy(c, e, h) == w
      ensures (forall n :: n in c.nodes ==> OwnerSeenBy(c, n, h) == w) ==> Deliver(c, e, h, 1) == Handled(w)
    {
      OneHop(c, e, h, 1);
      OneHop(c, OwnerSeenBy(c, e, h), h, 0);
    }
  }

  /** Nodes that have seen the same members, in whatever order and however often, send every request to the same
      node. */
  lemma EqualMembersOneHandler(
    c: Cluster, histories: map<NodeId, seq<Change>>, members: set<NodeId>, hash: Hashing, replicas: nat,
    nodes: set<NodeId>, h: Pos, w: NodeId)
    requires Connected(c, h) && NoCollision(hash, replicas, nodes) && w in c.nodes
    requires forall n :: n in c.nodes ==>
               && n in histories && MembersOf(histories[n]) == members && JoinsAmong(histories[n], nodes)
               && Answers(c.nodes[n], RingTheory.Replay(histories[n], hash, replicas))
    ensures forall e :: e in c.nodes ==> Deliver(c, e, h, 1) == Handled(OwnerSeenBy(c, w, h))
  {
    forall e | e in c.nodes
      ensures OwnerSeenBy(c, e, h) == OwnerSeenBy(c, w, h)
    {
      EqualMembersEqualRing(histories[e], histories[w], hash, replicas, nodes);
      assert SeesOwner(c, e, h) && SeesOwner(c, w, h);
      assert c.nodes[e].lookup(h) == c.nodes[w].lookup(h);
    }
    SameHandlerIffSameOwner(c, h, OwnerSeenBy(c, w, h));
  }

  // ---- while views differ --------------------------------------------------

  /** The nearest position on a ring. */
  ghost function NearestOn(o: Owners, h: Pos): (p: Pos)
    requires o != map[]
    ensures Nearest(o, h, p) && OwnerOf(o, h) == o[p]
  {
    NearestExists(o, h);
    var p :| Nearest(o, h, p);
    OwnerIsNearest(o, h, p);
    p
  }

  /** The owner one ring names, if on its own ring, either names itself there or names a node nearer still. */
  lemma OwnersComeNearer(
    o: Owners, o': Owners, members: set<NodeId>, members': set<NodeId>, hash: Hashing, replicas: nat,
    nodes: set<NodeId>, h: Pos)
    requires NoCollision(hash, replicas, nodes) && members <= nodes && members' <= nodes && o != map[] && o' != map[]
    requires IsRingOf(o, members, hash, replicas) && IsRingOf(o', members', hash, replicas) && OwnerOf(o, h) in members'
    ensures var d, d' := Dist(h, NearestOn(o, h)), Dist(h, NearestOn(o', h));
            d' < d || (d' == d && OwnerOf(o', h) == OwnerOf(o, h))
  {
    var p, q := NearestOn(o, h), NearestOn(o', h);
    assert p in Positions(hash, o[p], replicas) && p in o';
    DistCases(h, p);
    DistCases(h, q);
    if p == q {
      assert p in Positions(hash, o'[p], replicas);
    }
  }

  /** n's owner is nearer than n's reach, or takes itself for the owner. */
  predicate Nearing(c: Cluster, h: Pos, reach: NodeId -> nat, n: NodeId) {
    var w := OwnerSeenBy(c, n, h);
    reach(w) < reach(n) || (reach(w) == reach(n) && OwnerSeenBy(c, w, h) == w)
  }

  ghost predicate AllNearing(c: Cluster, h: Pos, reach: NodeId -> nat) {
    forall n {:trigger Nearing(c, h, reach, n)} :: n in c.nodes ==> Nearing(c, h, reach, n)
  }

  /** The others no further than e. */
  function NoFurther(nodes: set<NodeId>, reach: NodeId -> nat, e: NodeId): set<NodeId> {
    set n | n in nodes && n != e && reach(n) <= reach(e)
  }

  lemma NoFurtherShrinks(nodes: set<NodeId>, reach: NodeId -> nat, e: NodeId, w: NodeId)
    requires w in nodes && w != e && reach(w) <= reach(e)
    ensures |NoFurther(nodes, reach, e)| >= 1
    ensures reach(w) < reach(e) ==> |NoFurther(nodes, reach, w)| < |NoFurther(nodes, reach, e)|
  {
    assert w in NoFurther(nodes, reach, e);
    if reach(w) < reach(e) {
      ProperSubsetSize(NoFurther(nodes, reach, w), NoFurther(nodes, reach, e), w);
    }
  }

  lemma {:induction false} NearingSettles(c: Cluster, h: Pos, reach: NodeId -> nat, e: NodeId, forwards: nat)
    requires Connected(c, h) && AllNearing(c, h, reach) && e in c.nodes
    requires forwards >= |NoFurther(c.nodes.Keys, reach, e)|
    ensures var d := Deliver(c, e, h, forwards); d.Handled? && d.node in c.nodes && OwnerSeenBy(c, d.node, h) == d.node
    decreases forwards
  {
    var w := OwnerSeenBy(c, e, h);
    OneHop(c, e, h, forwards);
    assert Nearing(c, h, reach, e);
    if w != e {
      NoFurtherShrinks(c.nodes.Keys, reach, e, w);
      if OwnerSeenBy(c, w, h) == w {
        OneHop(c, w, h, forwards - 1);
      } else {
        NearingSettles(c, h, reach, w, forwards - 1);
      }
    }
  }

  lemma NearingSettlesAmongAll(c: Cluster, h: Pos, reach: NodeId -> nat, e: NodeId)
    requires Connected(c, h) && AllNearing(c, h, reach) && e in c.nodes
    ensures var d := Deliver(c, e, h, |c.nodes| - 1);
            d.Handled? && d.node in c.nodes && OwnerSeenBy(c, d.node, h) == d.node
  {
    ProperSubsetSize(NoFurther(c.nodes.Keys, reach, e), c.nodes.Keys, e);
    NearingSettles(c, h, reach, e, |c.nodes| - 1);
  }

  /** Every node answers from the ring of some of these nodes, itself among them, as New adds the local node. */
  ghost predicate OnOwnRing(
    c: Cluster, rings: map<NodeId, Owners>, members: map<NodeId, set<NodeId>>, hash: Hashing, replicas: nat,
    nodes: set<NodeId>)
  {
    forall n :: n in c.nodes ==>
      && n in rings && n in members && n in members[n] && members[n] <= nodes
      && IsRingOf(rings[n], members[n], hash, replicas) && Answers(c.nodes[n], rings[n])
  }

  ghost function Reach(rings: map<NodeId, Owners>, h: Pos): NodeId -> nat {
    (n: NodeId) => if n in rings && rings[n] != map[] then Dist(h, NearestOn(rings[n], h)) else 0
  }

  lemma OwnersAreNearing(
    c: Cluster, rings: map<NodeId, Owners>, members: map<NodeId, set<NodeId>>, hash: Hashing, replicas: nat,
    nodes: set<NodeId>, h: Pos)
    requires Connected(c, h) && NoCollision(hash, replicas, nodes)
             && OnOwnRing(c, rings, members, hash, replicas, nodes)
    ensures AllNearing(c, h, Reach(rings, h))
  {
    forall n | n in c.nodes
      ensures Nearing(c, h, Reach(rings, h), n)
    {
      var w := OwnerSeenBy(c, n, h);
      assert SeesOwner(c, n, h) && SeesOwner(c, w, h);
      OwnersComeNearer(rings[n], rings[w], members[n], members[w], hash, replicas, nodes, h);
    }
  }

  /** However much the nodes disagree about who is in, a request is handled after fewer forwards than there are nodes,
      by a node that takes itself for the owner. */
  lemma EveryRequestSettles(
    c: Cluster, rings: map<NodeId, Owners>, members: map<NodeId, set<NodeId>>, hash: Hashing, replicas: nat,
    nodes: set<NodeId>, e: NodeId, h: Pos)
    requires Connected(c, h) && NoCollision(hash, replicas, nodes)
             && OnOwnRing(c, rings, members, hash, replicas, nodes)
    requires e in c.nodes
    ensures var d := Deliver(c, e, h, |c.nodes| - 1);
            d.Handled? && d.node in c.nodes && OwnerSeenBy(c, d.node, h) == d.node
  {
    OwnersAreNearing(c, rings, members, hash, replicas, nodes, h);
    NearingSettlesAmongAll(c, h, Reach(rings, h), e);
  }

  // ---- clusters these theorems speak of ------------------------------------

  function Itself(names: set<NodeId>): map<NodeId, NodeId> {
    map n | n in names :: n
  }

  ghost function ViewOf(o: Owners, addresses: map<NodeId, Addr>): View {
    View((h: Pos) => if o == map[] then None else Some(OwnerOf(o, h)), addresses)
  }

  /** The nodes with these rings, each listening at an address all of them know. */
  ghost function ClusterOf(rings: map<NodeId, Owners>): Cluster {
    Cluster(map n | n in rings :: ViewOf(rings[n], Itself(rings.Keys)), Itself(rings.Keys))
  }

  /** Rings that name only nodes that are up make a connected cluster. */
  lemma ClusterIsConnected(rings: map<NodeId, Owners>, h: Pos)
    requires forall n :: n in rings ==> rings[n] != map[] && rings[n].Values <= rings.Keys
    ensures Connected(ClusterOf(rings), h)
  {
    var c := ClusterOf(rings);
    forall n | n in c.nodes
      ensures SeesOwner(c, n, h)
    {
      OwnerIsAnOwner(rings[n], h);
      assert OwnerOf(rings[n], h) in rings.Keys;
    }
  }

  /** A node that is on the ring of its history leaves it neither empty nor naming anyone else's nodes. */
  lemma HistoryNamesMembers(n: NodeId, history: seq<Change>, hash: Hashing, replicas: nat, nodes: set<NodeId>)
    requires replicas > 0 && NoCollision(hash, replicas, nodes) && JoinsAmong(history, nodes) && n in MembersOf(history)
    ensures var o := RingTheory.Replay(history, hash, replicas);
            && o != map[] && o.Values <= MembersOf(history) <= nodes
            && IsRingOf(o, MembersOf(history), hash, replicas)
  {
    HistoryGivesRing(history, hash, replicas, nodes);
    assert hash.replica(n, 0) in Positions(hash, n, replicas);
    assert hash.replica(n, 0) in RingTheory.Replay(history, hash, replicas);
  }

  /** What every node has heard: itself joining, and any others that are up joining and leaving. */
  predicate Heard(histories: map<NodeId, seq<Change>>) {
    forall n :: n in histories ==> n in MembersOf(histories[n]) && JoinsAmong(histories[n], histories.Keys)
  }

  ghost function RingsOf(histories: map<NodeId, seq<Change>>, hash: Hashing, replicas: nat): map<NodeId, Owners> {
    map n | n in histories :: RingTheory.Replay(histories[n], hash, replicas)
  }

  function MembershipsOf(histories: map<NodeId, seq<Change>>): map<NodeId, set<NodeId>> {
    map n | n in histories :: MembersOf(histories[n])
  }

  /** Whatever the nodes have heard, the cluster they form is one EveryRequestSettles speaks of. */
  lemma HearsayMakesACluster(histories: map<NodeId, seq<Change>>, hash: Hashing, replicas: nat, h: Pos)
    requires replicas > 0 && NoCollision(hash, replicas, histories.Keys) && Heard(histories)
    ensures var rings := RingsOf(histories, hash, replicas);
            && Connected(ClusterOf(rings), h) && ClusterOf(rings).nodes.Keys == histories.Keys
            && OnOwnRing(ClusterOf(rings), rings, MembershipsOf(histories), hash, replicas, histories.Keys)
  {
    var rings := RingsOf(histories, hash, replicas);
    forall n | n in histories
      ensures var o := rings[n];
              && o != map[] && o.Values <= MembersOf(histories[n]) <= histories.Keys
              && IsRingOf(o, MembersOf(histories[n]), hash, replicas)
    {
      HistoryNamesMembers(n, histories[n], hash, replicas, histories.Keys);
    }
    ClusterIsConnected(rings, h);
    forall n | n in histories
      ensures Answers(ClusterOf(rings).nodes[n], rings[n])
    {
      ViewAnswers(rings[n], Itself(rings.Keys));
    }
  }

  lemma ViewAnswers(o: Owners, addresses: map<NodeId, Addr>)
    ensures Answers(ViewOf(o, addresses), o)
  {
  }

  /** And such clusters exist for any nodes the ring has room for, with all replicas of all nodes apart. */
  lemma ClustersExist(histories: map<NodeId, seq<Change>>, names: seq<NodeId>, replicas: nat, h: Pos)
    returns (hash: Hashing)
    requires 0 < replicas && |names| * replicas <= SPAN
    requires Heard(histories) && forall n :: n in names <==> n in histories
    ensures NoCollision(hash, replicas, histories.Keys)
    ensures var rings := RingsOf(histories, hash, replicas);
            && Connected(ClusterOf(rings), h) && ClusterOf(rings).nodes.Keys == histories.Keys
            && OnOwnRing(ClusterOf(rings), rings, MembershipsOf(histories), hash, replicas, histories.Keys)
  {
    hash := CollisionsAreAvoidable(names, replicas);
    assert (set n | n in names) == histories.Keys;
    HearsayMakesACluster(histories, hash, replicas, h);
  }

  lemma LonerOwnsAll(rings: map<NodeId, Owners>, n: NodeId, h: Pos)
    requires n in rings && rings[n] != map[] && rings[n].Values <= {n}
    ensures OwnerSeenBy(ClusterOf(rings), n, h) == n
  {
    OwnerIsAnOwner(rings[n], h);
  }

  /** For one, two nodes with the default number of replicas that have yet to hear of each other: whichever of them a
      request enters at handles it. */
  lemma SplitClusterExists(a: NodeId, b: NodeId, h: Pos) returns (hash: Hashing, histories: map<NodeId, seq<Change>>)
    requires a != b
    ensures histories == map[a := [Join(a)], b := [Join(b)]]
    ensures NoCollision(hash, DEFAULT_VIRTUAL_NODES, {a, b})
    ensures var rings := RingsOf(histories, hash, DEFAULT_VIRTUAL_NODES);
            var c := ClusterOf(rings);
            && Connected(c, h) && c.nodes.Keys == {a, b}
            && OnOwnRing(c, rings, MembershipsOf(histories), hash, DEFAULT_VIRTUAL_NODES, {a, b})
            && OwnerSeenBy(c, a, h) == a && OwnerSeenBy(c, b, h) == b
  {
    histories := map[a := [Join(a)], b := [Join(b)]];
    OneJoin(a);
    OneJoin(b);
    hash := ClustersExist(histories, [a, b], DEFAULT_VIRTUAL_NODES, h);
    assert histories.Keys == {a, b};
    HistoryNamesMembers(a, [Join(a)], hash, DEFAULT_VIRTUAL_NODES, {a, b});
    HistoryNamesMembers(b, [Join(b)], hash, DEFAULT_VIRTUAL_NODES, {a, b});
    LonerOwnsAll(RingsOf(histories, hash, DEFAULT_VIRTUAL_NODES), a, h);
    LonerOwnsAll(RingsOf(histories, hash, DEFAULT_VIRTUAL_NODES), b, h);
  }

  lemma OneJoin(n: NodeId)
    ensures MembersOf([Join(n)]) == {n}
  {
    assert [Join(n)][..0] == [];
  }

  /** Two nodes that each take the other for the owner pass a request between them for ever. */
  lemma {:induction false} DisagreementNeverSettles(c: Cluster, a: NodeId, b: NodeId, h: Pos, forwards: nat)
    requires Connected(c, h) && a in c.nodes && b in c.nodes && a != b
    requires OwnerSeenBy(c, a, h) == b && OwnerSeenBy(c, b, h) == a
    ensures Deliver(c, a, h, forwards).StillForwarding?
    decreases forwards
  {
    OneHop(c, a, h, forwards);
    if forwards > 0 {
      DisagreementNeverSettles(c, b, a, h, forwards - 1);
    }
  }

  /** Two nodes, each knowing of the other but missing from its own ring. */
  ghost function Strangers(a: NodeId, b: NodeId): Cluster {
    var addresses := map[a := "a", b := "b"];
    Cluster(map[a := View(h => Some(b), addresses), b := View(h => Some(a), addresses)], map["a" := a, "b" := b])
  }

  /** Without the local node on its own ring that happens, for any hash and any key. */
  lemma StrangersForwardForEver(a: NodeId, b: NodeId, hash: Hashing, replicas: nat, h: Pos, forwards: nat)
    requires a != b && replicas > 0
    ensures var c := Strangers(a, b);
            && Answers(c.nodes[a], RingTheory.Replay([Join(b)], hash, replicas))
            && Answers(c.nodes[b], RingTheory.Replay([Join(a)], hash, replicas))
            && Connected(c, h) && Deliver(c, a, h, forwards).StillForwarding?
  {
    SoleOwner(a, hash, replicas, Strangers(a, b).nodes[b]);
    SoleOwner(b, hash, replicas, Strangers(a, b).nodes[a]);
    StrangersMeet(a, b, h);
    DisagreementNeverSettles(Strangers(a, b), a, b, h, forwards);
  }

  lemma StrangersMeet(a: NodeId, b: NodeId, h: Pos)
    requires a != b
    ensures var c := Strangers(a, b);
            Connected(c, h) && OwnerSeenBy(c, a, h) == b && OwnerSeenBy(c, b, h) == a
  {
    var c := Strangers(a, b);
    assert c.nodes[a].lookup(h) == Some(b) && c.nodes[b].lookup(h) == Some(a);
  }

  lemma SoleOwner(n: NodeId, hash: Hashing, replicas: nat, v: View)
    requires replicas > 0 && forall h :: v.lookup(h) == Some(n)
    ensures Answers(v, RingTheory.Replay([Join(n)], hash, replicas))
  {
    var o := RingTheory.Replay([Join(n)], hash, replicas);
    assert [Join(n)][..|[Join(n)]| - 1] == [];
    assert RingTheory.Replay([], hash, replicas) == map[];
    assert o == Added(map[], n, Positions(hash, n, replicas));
    assert hash.replica(n, 0) in o;
    forall h
      ensures OwnerOf(o, h) == n
    {
      OwnerIsAnOwner(o, h);
    }
  }
}
