/** Which node runs a trip's loop, and whether it hears the answers. RespondToOffer is routed by the trip's origin cell
    and delivered through the hub of the node that handles it; a loop listens on the hub of the node it runs on. */
module Hubs {
  import opened StoreSpec
  import opened StateMachine
  import opened Protocol
  import opened Isolation
  import opened FirstAcceptor
  import opened HashRing
  import opened Routing

  /** What a driver's client does in a round: sends an answer to some node, so long after the offer opens. */
  datatype Tap = Tap(entry: NodeId, resp: Response, after: nat)

  /** An answer entering at a node is delivered through the hub of home. */
  predicate Reaches(c: Cluster, entry: NodeId, h: Pos, forwards: nat, home: NodeId) {
    Deliver(c, entry, h, forwards) == Handled(home)
  }

  /** What a loop on home is told, when the driver of each round taps as given. */
  function Told(c: Cluster, h: Pos, forwards: nat, home: NodeId, tap: Option<Tap>): Answer {
    if tap.Some? && Reaches(c, tap.value.entry, h, forwards, home)
    then Reply(tap.value.resp, tap.value.after) else Silence
  }

  /** The answers env gives the Run of this trip are what the hub of home tells it. */
  ghost predicate ListensAt(
    env: Env, trip: TripId, c: Cluster, h: Pos, forwards: nat, home: NodeId, taps: nat -> Option<Tap>)
  {
    forall round :: env.answers(trip, round) == Told(c, h, forwards, home, taps(round))
  }

  /** An answer gets to home with at most one forward exactly when the node it enters at takes home for the owner, and
      home does too. */
  lemma OneForwardReachesIff(c: Cluster, entry: NodeId, h: Pos, home: NodeId)
    requires Connected(c, h) && entry in c.nodes
    ensures Reaches(c, entry, h, 1, home) <==> OwnerSeenBy(c, entry, h) == home && OwnerSeenBy(c, home, h) == home
  {
    OneHop(c, entry, h, 1);
    OneHop(c, OwnerSeenBy(c, entry, h), h, 0);
  }

  /** Answers sent to any node reach a loop exactly when it runs on the node all of them take for the owner. */
  lemma EveryAnswerReachesIff(c: Cluster, h: Pos, home: NodeId)
    requires Connected(c, h) && home in c.nodes
    ensures (forall e :: e in c.nodes ==> Reaches(c, e, h, 1, home))
            <==> (forall e :: e in c.nodes ==> OwnerSeenBy(c, e, h) == home)
  {
    SameHandlerIffSameOwner(c, h, home);
  }

  /** However often it is forwarded, no answer reaches a loop on a node that takes another for the owner. */
  lemma {:induction false} NoAnswerReachesElsewhere(c: Cluster, entry: NodeId, h: Pos, forwards: nat, home: NodeId)
    requires Connected(c, h) && OwnerSeenBy(c, home, h) != home
    ensures !Reaches(c, entry, h, forwards, home)
    decreases forwards
  {
    if entry in c.nodes {
      OneHop(c, entry, h, forwards);
      if OwnerSeenBy(c, entry, h) != entry && forwards > 0 {
        NoAnswerReachesElsewhere(c, OwnerSeenBy(c, entry, h), h, forwards - 1, home);
      }
    }
  }

  /** The loop a Dispatch request starts runs on a node that can hear: the handling node takes itself for the owner. */
  lemma {:induction false} DispatchStartsWhereItHears(c: Cluster, entry: NodeId, h: Pos, forwards: nat)
    requires Connected(c, h) && entry in c.nodes && Deliver(c, entry, h, forwards).Handled?
    ensures var home := Deliver(c, entry, h, forwards).node; home in c.nodes && OwnerSeenBy(c, home, h) == home
    decreases forwards
  {
    OneHop(c, entry, h, forwards);
    if OwnerSeenBy(c, entry, h) != entry {
      DispatchStartsWhereItHears(c, OwnerSeenBy(c, entry, h), h, forwards - 1);
    }
  }

  /** A Run on any other node, as a sweep starts one on whichever node finds the trip first, hears nobody: alone, if it
      returns without error it marks the trip UNFULFILLED, whatever its drivers answer. */
  lemma RunElsewhereNeverMatches(
    cfg: Config, env: Env, job: Job, db: Db, n: nat, c: Cluster, h: Pos, forwards: nat, home: NodeId,
    taps: nat -> Option<Tap>)
    requires Connected(c, h) && OwnerSeenBy(c, home, h) != home && ListensAt(env, job.trip, c, h, forwards, home, taps)
    requires var run := Started(cfg, env, job, db, n).0; run.pc.Done? && !run.pc.result.Failed?
    ensures var (run, db') := Started(cfg, env, job, db, n);
            run.pc.result == Unmatched && InState(db', job.trip, TripUnfulfilled) && SameStates(db'.drivers, db.drivers)
  {
    forall round: nat
      ensures !Accepts(cfg, env, job.trip, round)
    {
      assert env.answers(job.trip, round) == Told(c, h, forwards, home, taps(round));
      if taps(round).Some? {
        NoAnswerReachesElsewhere(c, taps(round).value.entry, h, forwards, home);
      }
    }
    RunFindsFirstAcceptor(cfg, env, job, db, n);
  }

  /** On the node all take for the owner the loop is told every answer, wherever it is sent: a Run alone matches the
      first of the drivers asked who accepts within the window, if there is one. */
  lemma RunAtOwnerHearsAll(
    cfg: Config, env: Env, job: Job, db: Db, n: nat, c: Cluster, h: Pos, home: NodeId, taps: nat -> Option<Tap>,
    round: nat)
    requires Connected(c, h) && ListensAt(env, job.trip, c, h, 1, home, taps)
    requires forall e :: e in c.nodes ==> OwnerSeenBy(c, e, h) == home
    requires forall r :: taps(r).Some? ==> taps(r).value.entry in c.nodes
    requires 1 <= round <= |Take(Willing(db.drivers, job.candidates), cfg.maxRounds)|
    requires taps(round).Some? && taps(round).value.resp == Accepted && taps(round).value.after <= cfg.window
    requires forall r :: 1 <= r < round && taps(r).Some? ==>
               taps(r).value.resp != Accepted || taps(r).value.after > cfg.window
    requires var run := Started(cfg, env, job, db, n).0; run.pc.Done? && !run.pc.result.Failed?
    ensures Started(cfg, env, job, db, n).0.pc.result
            == Matched(Take(Willing(db.drivers, job.candidates), cfg.maxRounds)[round - 1])
  {
    forall r: nat
      ensures Accepts(cfg, env, job.trip, r)
              <==> taps(r).Some? && taps(r).value.resp == Accepted && taps(r).value.after <= cfg.window
    {
      assert env.answers(job.trip, r) == Told(c, h, 1, home, taps(r));
      if taps(r).Some? {
        SameHandlerIffSameOwner(c, h, home);
      }
    }
    RunFindsFirstAcceptor(cfg, env, job, db, n);
  }
}
