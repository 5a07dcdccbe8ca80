/** DriversInCell as the two moments it is made of, finding the dead members and removing them, with pings in between.
    This is what treating it as one step in DriverIndex leaves out. */
module SplitSweep {
  import opened StoreSpec
  import opened DriverIndex

  /** The EXISTS pipeline: members of c without a hash. */
  function FoundDead(ix: Index, c: Cell): set<DriverId> {
    set d | d in Members(ix.members, c) && d !in ix.records
  }

  /** SREM of those found earlier. */
  function Removed(ix: Index, c: Cell, dead: set<DriverId>): Index {
    ix.(members := ix.members[c := Members(ix.members, c) - dead])
  }

  /** The removal loses no live driver exactly when none of those found dead has since pinged from the cell. */
  lemma RemovalKeepsCompleteIff(ix: Index, c: Cell, dead: set<DriverId>)
    requires Complete(ix)
    ensures Complete(Removed(ix, c, dead)) <==> forall d :: d in dead && d in ix.records ==> ix.records[d].cell != c
  {
    var ix' := Removed(ix, c, dead);
    if Complete(ix') {
      forall d | d in dead && d in ix.records
        ensures ix.records[d].cell != c
      {
        assert d in ix'.records && d in Members(ix'.members, ix'.records[d].cell);
      }
    }
  }

  /** With nothing in between it is the one step of DriverIndex. */
  lemma PromptRemovalIsSweep(ix: Index, c: Cell)
    requires FoundDead(ix, c) != {}
    ensures Removed(ix, c, FoundDead(ix, c)) == Swept(ix, c)
  {
    assert !(Members(ix.members, c) <= ix.records.Keys) by {
      var d :| d in FoundDead(ix, c);
      assert d in Members(ix.members, c) && d !in ix.records.Keys;
    }
    assert Members(ix.members, c) - FoundDead(ix, c) == Live(ix, c);
  }

  /** A driver back from expiry in between drops out of the index, and its next ping brings it back. */
  lemma RevivedDriverVanishesUntilNextPing(ix: Index, d: DriverId, at: Location, c: Cell, now: nat, next: nat)
    requires d in FoundDead(ix, c)
    ensures var ix' := Removed(Ping(ix, d, at, c, now), c, FoundDead(ix, c));
            && d in Scan(ix', c) && d !in Live(ix', c)
            && d in Live(Ping(ix', d, at, c, next), c)
  {
    var ix' := Removed(Ping(ix, d, at, c, now), c, FoundDead(ix, c));
    RelocatedMembers(ix', d, at, c, next, c);
  }
}
