/** A hash with a TTL that expires between the read and the write of a state change. HSET then makes a new hash of the
    one field and no TTL: a stub, which exists but cannot be parsed, and does not go away. Driver hashes are made whole
    by a ping's script and offer hashes by CreateOffer. This is what the atomic-step assumption leaves out of expiry. */
module SplitExpiry {
  import opened StateMachine
  import opened StoreSpec

  datatype Command<B> =
    | Full(body: B)        // every field, and the TTL
    | Field(name: string)  // HSET or HSETNX of one field
    | Lapse                // the TTL runs out, if there is one

  /** body stands for the fields only a whole write supplies. */
  datatype Hash<B> = Hash(body: Option<B>, fields: set<string>, fades: bool)

  predicate Exists<B>(h: Hash<B>) {
    h.body.Some? || h.fields != {}
  }

  predicate Stub<B>(h: Hash<B>) {
    Exists(h) && h.body.None?
  }

  function Gone<B>(): Hash<B> {
    Hash(None, {}, false)
  }

  function Do<B>(h: Hash<B>, c: Command<B>): Hash<B> {
    match c
    case Full(body) => Hash(Some(body), h.fields + {"state"}, true)
    case Field(name) => h.(fields := h.fields + {name})
    case Lapse => if h.fades then Gone() else h
  }

  function Play<B>(h: Hash<B>, cmds: seq<Command<B>>): Hash<B> {
    if cmds == [] then h else Do(Play(h, cmds[..|cmds| - 1]), cmds[|cmds| - 1])
  }

  /** A hash is whole exactly when it has a TTL. */
  predicate Sound<B>(h: Hash<B>) {
    h.body.Some? <==> h.fades
  }

  lemma {:induction false} PlayIsSound<B>(h: Hash<B>, cmds: seq<Command<B>>)
    requires Sound(h)
    ensures Sound(Play(h, cmds))
  {
    if cmds != [] {
      PlayIsSound(h, cmds[..|cmds| - 1]);
    }
  }

  /** The hash lapsed, and was not made whole since. */
  ghost predicate LapsedForGood<B>(cmds: seq<Command<B>>) {
    exists i :: 0 <= i < |cmds| && cmds[i].Lapse? && forall j :: i < j < |cmds| ==> !cmds[j].Full?
  }

  lemma LapsedNext<B>(cmds: seq<Command<B>>)
    requires cmds != []
    ensures var last := cmds[|cmds| - 1];
            LapsedForGood(cmds) <==> last.Lapse? || (!last.Full? && LapsedForGood(cmds[..|cmds| - 1]))
  {
    var n, init := |cmds| - 1, cmds[..|cmds| - 1];
    assert forall k :: 0 <= k < n ==> init[k] == cmds[k];
    if LapsedForGood(init) && !cmds[n].Full? {
      var i :| 0 <= i < n && init[i].Lapse? && forall j :: i < j < n ==> !init[j].Full?;
      assert cmds[i].Lapse?;
    }
    if LapsedForGood(cmds) && !cmds[n].Lapse? {
      var i :| 0 <= i < |cmds| && cmds[i].Lapse? && forall j :: i < j < |cmds| ==> !cmds[j].Full?;
      assert init[i].Lapse?;
    }
  }

  lemma {:induction false} WholeIsLostIff<B>(h: Hash<B>, cmds: seq<Command<B>>)
    requires Sound(h) && h.body.Some?
    ensures Play(h, cmds).body.None? <==> LapsedForGood(cmds)
  {
    if cmds != [] {
      WholeIsLostIff(h, cmds[..|cmds| - 1]);
      PlayIsSound(h, cmds[..|cmds| - 1]);
      LapsedNext(cmds);
    }
  }

  /** SetState, and SetOfferState: read from a whole hash, write one field. It leaves a stub exactly when the hash
      lapses between its two commands and nothing makes it whole again before the write. */
  lemma StateChangeLeavesStubIff<B>(h: Hash<B>, between: seq<Command<B>>, name: string)
    requires Sound(h) && h.body.Some?
    ensures Stub(Do(Play(h, between), Field(name))) <==> LapsedForGood(between)
  {
    WholeIsLostIff(h, between);
  }

  /** A stub stays one, however long, until the hash is made whole, and then it is one no more. */
  lemma {:induction false} StubStaysUntilWhole<B>(h: Hash<B>, cmds: seq<Command<B>>, body: B)
    requires Sound(h) && Stub(h) && forall k :: 0 <= k < |cmds| ==> !cmds[k].Full?
    ensures Sound(Play(h, cmds)) && Stub(Play(h, cmds)) && !Stub(Do(Play(h, cmds), Full(body)))
  {
    if cmds != [] {
      var init := cmds[..|cmds| - 1];
      assert forall k :: 0 <= k < |init| ==> init[k] == cmds[k];
      StubStaysUntilWhole(h, init, body);
    }
  }

  // ---- what a stub does to its readers -------------------------------------

  function HashOf<B>(hashes: map<string, Hash<B>>, id: string): Hash<B> {
    if id in hashes then hashes[id] else Gone()
  }

  /** GetDrivers, with its parse errors: the ids of one cell that EXISTS has found live. */
  method ReadDrivers(hashes: map<DriverId, Hash<DriverRecord>>, ids: seq<DriverId>)
    returns (ok: bool, found: map<DriverId, DriverRecord>)
    ensures ok <==> forall k :: 0 <= k < |ids| ==> !Stub(HashOf(hashes, ids[k]))
    ensures ok ==> forall d :: d in found <==> d in ids && Exists(HashOf(hashes, d))
    ensures ok ==> forall d :: d in found ==> HashOf(hashes, d).body == Some(found[d])
  {
    found := map[];
    for i := 0 to |ids|
      invariant forall k :: 0 <= k < i ==> !Stub(HashOf(hashes, ids[k]))
      invariant forall d :: d in found <==> d in ids[..i] && Exists(HashOf(hashes, d))
      invariant forall d :: d in found ==> HashOf(hashes, d).body == Some(found[d])
    {
      assert ids[..i + 1] == ids[..i] + [ids[i]];
      var h := HashOf(hashes, ids[i]);
      if !Exists(h) {
        continue;
      }
      if h.body.None? {
        return false, map[];
      }
      found := found[ids[i] := h.body.value];
    }
    assert ids[..|ids|] == ids;
    ok := true;
  }

  /** One driver's stub fails every search that reads a cell listing them, and EXISTS keeps them listed, until they
      ping. */
  lemma StubFailsItsCell(hashes: map<DriverId, Hash<DriverRecord>>, listed: seq<DriverId>, d: DriverId,
                         cmds: seq<Command<DriverRecord>>, later: map<DriverId, Hash<DriverRecord>>)
    requires d in listed && Sound(HashOf(hashes, d)) && Stub(HashOf(hashes, d))
    requires HashOf(later, d) == Play(HashOf(hashes, d), cmds) && forall k :: 0 <= k < |cmds| ==> !cmds[k].Full?
    ensures Exists(HashOf(later, d)) && !forall k :: 0 <= k < |listed| ==> !Stub(HashOf(later, listed[k]))
  {
    var any := DriverRecord(Location(0.0, 0.0), 0, Available, 0, None);
    StubStaysUntilWhole(HashOf(hashes, d), cmds, any);
  }

  /** GetOffer, with its parse errors. */
  function ReadOffer(offers: map<TripId, Hash<OfferRecord>>, t: TripId): (r: Option<Err>)
    ensures r.None? <==> HashOf(offers, t).body.Some?
    ensures r == Some(OfferNotFound) <==> !Exists(HashOf(offers, t))
  {
    var h := HashOf(offers, t);
    if !Exists(h) then Some(OfferNotFound) else if h.body.None? then Some(Io) else None
  }

  /** The loop of a sweep in which every resume succeeds and nothing else changes an offer: how many trips it gets
      through. */
  method SweepThrough(offers: map<TripId, Hash<OfferRecord>>, ids: seq<TripId>) returns (n: nat, err: Option<Err>)
    ensures n <= |ids| && forall k :: 0 <= k < n ==> !Stub(HashOf(offers, ids[k]))
    ensures err.Some? <==> n < |ids|
    ensures n < |ids| ==> Stub(HashOf(offers, ids[n]))
  {
    n, err := 0, None;
    while n < |ids|
      invariant n <= |ids| && err.None? && forall k :: 0 <= k < n ==> !Stub(HashOf(offers, ids[k]))
    {
      var read := ReadOffer(offers, ids[n]);
      if read.Some? && read != Some(OfferNotFound) {
        return n, read;
      }
      n := n + 1;
    }
  }

  /** A trip that stays listed with a stub for an offer stops every sweep, now and later, until it is offered afresh;
      with no stub a sweep gets through. */
  lemma StubStopsEverySweep(offers: map<TripId, Hash<OfferRecord>>, ids: seq<TripId>, t: TripId,
                            cmds: seq<Command<OfferRecord>>, later: map<TripId, Hash<OfferRecord>>, n: nat)
    requires t in ids && Sound(HashOf(offers, t)) && Stub(HashOf(offers, t))
    requires HashOf(later, t) == Play(HashOf(offers, t), cmds) && forall k :: 0 <= k < |cmds| ==> !cmds[k].Full?
    requires n <= |ids| && forall k :: 0 <= k < n ==> !Stub(HashOf(later, ids[k]))
    ensures n < |ids|
  {
    StubStaysUntilWhole(HashOf(offers, t), cmds, OfferRecord("", 0, OfferPending, 0, 0));
    var i :| 0 <= i < |ids| && ids[i] == t;
  }
}
