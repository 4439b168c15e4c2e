/** Which lane a claimant is served from, over whole runs with lanes on. */
module DispatchLanes {
  import opened Prelude
  import opened DispatchModel
  import opened DispatchWorld
  import opened DispatchRuns
  import opened DispatchTheorems

  /** Every directory that was given out went to a slot that its lane may be given to. */
  ghost predicate OwnersServe(w: World) {
    forall d :: d in w.q.affinity.owner ==>
      w.q.affinity.owner[d] in w.workers && Serves(w.workers[w.q.affinity.owner[d]], w.q.setup.laneOf, d)
  }

  lemma ClaimOwners(w: World, slot: Slot, meter: Meter)
    requires OwnersServe(w) && w.q.setup.lanes && slot in w.workers
    ensures OwnersServe(ClaimStep(w, slot, meter))
  {
    var lane := w.workers[slot];
    var at := FirstIndex(w.q.waiting, InLane(w.q.setup.laneOf, lane));
    if at.Some? {
      ServesIsMatch(w.q.setup.laneOf, w.q.waiting[at.value], lane);
    }
  }

  lemma {:induction false} OwnersServed(ws: seq<World>, es: seq<Event>, k: nat)
    requires Behavior(ws, es) && k < |ws| && ws[0].q.setup.lanes
    ensures OwnersServe(ws[k])
  {
    if k > 0 {
      OwnersServed(ws, es, k - 1);
      SameRun(ws, es, k - 1);
      assert Enabled(ws[k - 1], es[k - 1]);
      match es[k - 1]
      case Claim(slot, meter) => ClaimOwners(ws[k - 1], slot, meter);
      case Finish(slot, success, hasCore) => FinishOwners(ws[k - 1], slot, success, hasCore);
      case Cancel =>
    }
  }

  lemma FinishOwners(w: World, slot: Slot, success: bool, hasCore: bool)
    requires OwnersServe(w) && slot in w.out
    ensures OwnersServe(FinishStep(w, slot, success, hasCore))
  {}

  /**
   With lanes on every ticket, retries included, goes to a slot that takes any lane or the one of its
   case's directory.
   */
  lemma ServedFromItsLane(ws: seq<World>, es: seq<Event>, k: nat, i: nat)
    requires Behavior(ws, es) && k < |ws| && ws[0].q.setup.lanes && i < |ws[k].log|
    ensures var e := ws[k].log[i];
            e.slot in ws[k].workers && Serves(ws[k].workers[e.slot], ws[0].q.setup.laneOf, e.ticket.kase.dir)
  {
    Invariant(ws, es, k);
    SameRun(ws, es, k);
    OwnersServed(ws, es, k);
  }

  /** The first case that the lane may be given. */
  ghost predicate FirstServed(waiting: seq<Case>, laneOf: map<string, Lane>, lane: Lane, i: nat) {
    i < |waiting| && Serves(lane, laneOf, waiting[i].dir) &&
    forall j :: 0 <= j < i ==> !Serves(lane, laneOf, waiting[j].dir)
  }

  /**
   With lanes on a slot with nothing kept for it is handed the first waiting case of its lane, and told
   there is no more exactly when none waits.
   */
  lemma HandedFromItsLane(ws: seq<World>, es: seq<Event>, k: nat, slot: Slot, meter: Meter)
    requires Behavior(ws, es) && k < |ws| && ws[0].q.setup.lanes && slot in ws[k].workers
    requires !ws[k].q.stopped && ws[k].q.affinity.Held(slot) == []
    ensures var (w, lane) := (ws[k], ws[k].workers[slot]);
            var a := ClaimOnce(w.q, slot, lane, meter).1;
            && (a == NoMore <==> forall c :: c in w.q.waiting ==> !Serves(lane, w.q.setup.laneOf, c.dir))
            && (a != NoMore ==>
                  exists i: nat :: FirstServed(w.q.waiting, w.q.setup.laneOf, lane, i) &&
                                   a == Handed(Ticket(w.q.waiting[i], 0)))
  {
    Invariant(ws, es, k);
    SameRun(ws, es, k);
    ServedFirst(ws[k].q, slot, ws[k].workers[slot], meter);
  }

  lemma ServedFirst(q: QueueState, slot: Slot, lane: Lane, meter: Meter)
    requires q.setup.lanes && !q.stopped && q.affinity.Held(slot) == [] && q.retries.queue == []
    ensures var a := ClaimOnce(q, slot, lane, meter).1;
            && (a == NoMore <==> forall c :: c in q.waiting ==> !Serves(lane, q.setup.laneOf, c.dir))
            && (a != NoMore ==>
                  exists i: nat :: FirstServed(q.waiting, q.setup.laneOf, lane, i) &&
                                   a == Handed(Ticket(q.waiting[i], 0)))
  {
    var at := FirstIndex(q.waiting, InLane(q.setup.laneOf, lane));
    forall j | 0 <= j < |q.waiting|
      ensures Serves(lane, q.setup.laneOf, q.waiting[j].dir) <==> InLane(q.setup.laneOf, lane)(q.waiting[j])
    {
      ServesIsMatch(q.setup.laneOf, q.waiting[j], lane);
    }
    if at.Some? {
      assert q.waiting[at.value] in q.waiting;
      assert FirstServed(q.waiting, q.setup.laneOf, lane, at.value);
    }
  }
}
