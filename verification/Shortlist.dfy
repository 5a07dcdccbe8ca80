/** FindCandidates followed by Rank, as the request handler and the reconciler both call them. */
module Matching {
  import opened StateMachine
  import opened StoreSpec
  import opened DriverIndex
  import opened FirstAcceptor
  import opened Stores
  import opened CandidateSearch
  import opened Ranking

  function Names(ranked: seq<Ranked>): (ids: seq<DriverId>)
    ensures |ids| == |ranked| && forall i :: 0 <= i < |ids| ==> ids[i] == ranked[i].candidate.id
  {
    seq(|ranked|, i requires 0 <= i < |ranked| => ranked[i].candidate.id)
  }

  /** ranked lists, best first and once each, exactly the AVAILABLE drivers a scan of all records finds within k. */
  ghost predicate RanksWithin(ranked: seq<Ranked>, ix: Index, g: Grid, origin: Cell, k: nat, s: Setting) {
    && DistinctRanked(ranked)
    && (forall d :: d in Names(ranked) <==> d in Within(ix, g, origin, k))
    && (forall i :: 0 <= i < |ranked| ==> ranked[i].candidate.id in ix.records && RankedFrom(ranked[i], ix, s))
    && (forall i, j :: 0 <= i < j < |ranked| ==> Leads(ranked[i].candidate, ranked[j].candidate, s))
  }

  /** An entry carries the record that was read, and the ETA of that position. */
  predicate RankedFrom(r: Ranked, ix: Index, s: Setting)
    requires r.candidate.id in ix.records
  {
    r.candidate.record == ix.records[r.candidate.id] && s.estimate(r.candidate.record.at, s.rider) == Some(r.eta)
  }

  lemma {:induction false} AllAreWilling(drivers: Drivers, ids: seq<DriverId>)
    requires forall i :: 0 <= i < |ids| ==> ids[i] in drivers && drivers[ids[i]].state == Available
    ensures Willing(drivers, ids) == ids
  {
    if ids != [] {
      AllAreWilling(drivers, ids[..|ids| - 1]);
    }
  }

  /** Searching and then ranking, on a store that shows the views of ix. */
  lemma SearchThenRank(
    ix: Index, g: Grid, origin: Cell, k: nat, cs: seq<Candidate>, ids: seq<DriverId>, s: Setting, ranked: seq<Ranked>)
    requires |ids| == |cs| && CandidateSearch.Distinct(ids)
    requires forall i :: 0 <= i < |ids| ==> ids[i] in ix.records && cs[i] == Candidate(ids[i], ix.records[ids[i]])
    requires forall d :: d in ids <==> d in Within(ix, g, origin, k)
    requires IsRanking(ranked, cs, s)
    ensures RanksWithin(ranked, ix, g, origin, k, s)
  {
    RankingIsDistinct(ranked, cs, s);
    forall i | 0 <= i < |ranked|
      ensures exists j :: 0 <= j < |cs| && ranked[i] == Score(cs[j], s) && ranked[i].candidate == cs[j]
    {
      InRanking(ranked, cs, s, ranked[i]);
    }
    forall i, j | 0 <= i < j < |ranked|
      ensures Leads(ranked[i].candidate, ranked[j].candidate, s)
    {
      PrecedesIff(ranked, cs, s, i, j);
    }
    forall d
      ensures d in Names(ranked) <==> d in ids
    {
      if d in Names(ranked) {
        var i :| 0 <= i < |ranked| && Names(ranked)[i] == d;
        var j :| 0 <= j < |cs| && ranked[i].candidate == cs[j];
        assert ids[j] == d;
      }
      if d in ids {
        var j :| 0 <= j < |ids| && ids[j] == d;
        InRanking(ranked, cs, s, Score(cs[j], s));
        var i :| 0 <= i < |ranked| && ranked[i] == Score(cs[j], s);
        assert Names(ranked)[i] == d;
      }
    }
  }

  /** Every driver shortlisted is asked in turn, and no other. */
  lemma RankedAreWilling(ranked: seq<Ranked>, ix: Index, g: Grid, origin: Cell, k: nat, s: Setting)
    requires RanksWithin(ranked, ix, g, origin, k, s)
    ensures Willing(ix.records, Names(ranked)) == Names(ranked)
  {
    forall i | 0 <= i < |ranked|
      ensures Names(ranked)[i] in ix.records && ix.records[Names(ranked)[i]].state == Available
    {
      assert Names(ranked)[i] in Names(ranked);
    }
    AllAreWilling(ix.records, Names(ranked));
  }

  class Matcher {
    const grid: Grid
    const searchCfg: SearchConfig
    const rankCfg: RankConfig
    const estimate: (Location, Location) -> Option<nat>

    constructor (
      grid: Grid, searchCfg: SearchConfig, rankCfg: RankConfig, estimate: (Location, Location) -> Option<nat>)
      ensures this.grid == grid && this.searchCfg == searchCfg
      ensures this.rankCfg == rankCfg && this.estimate == estimate
    {
      this.grid := grid;
      this.searchCfg := searchCfg;
      this.rankCfg := rankCfg;
      this.estimate := estimate;
    }

    /** The store is indexed as it should be, and the disks are those of the grid. */
    ghost predicate Searchable(ix: Index, origin: Cell) {
      Findable(ix) && Disks(grid, origin) && searchCfg.maxK >= 0
    }

    /** On such a store ranked is, best first, the AVAILABLE drivers of the whole disk of radius k, where the search
        stops. */
    ghost predicate Shortlisted(
      ix: Index, rider: Location, origin: Cell, now: nat, ranked: seq<Ranked>, k: nat)
    {
      Searchable(ix, origin) ==>
        StopsAt(ix, grid, origin, searchCfg, k)
        && RanksWithin(ranked, ix, grid, origin, k, Setting(estimate, rider, rankCfg, now))
    }

    /** The candidates for a trip, ranked. */
    method Shortlist(ctx: Context, store: DriverStore, rider: Location, origin: Cell)
      returns (err: Option<Err>, ranked: seq<Ranked>, ghost k: nat)
      modifies store`members, ctx
      ensures ctx.now == old(ctx.now) && SameViews(old(store.Contents()), store.Contents())
      ensures err.None? ==> Shortlisted(old(store.Contents()), rider, origin, old(ctx.now), ranked, k)
    {
      ghost var ix := store.Contents();
      var candidates;
      ghost var ids, visited;
      err, candidates, ids, k, visited := FindCandidates(ctx, store, grid, origin, searchCfg);
      ranked := [];
      if err.Some? {
        return;
      }
      var setting := Setting(estimate, rider, rankCfg, ctx.now);
      var ok;
      ok, ranked := Ranking.Rank(candidates, setting);
      if !ok {
        err := Some(SearchFailed);
        return;
      }
      if Searchable(ix, origin) {
        SearchThenRank(ix, grid, origin, k, candidates, ids, setting, ranked);
      }
    }
  }
}
