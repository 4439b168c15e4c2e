/** What the two modes of the queue keep: the window with lanes off, the owners with lanes on. */
module DispatchModes {
  import opened Prelude
  import opened DispatchModel
  import opened DispatchWorld
  import opened DispatchSteps

  // ---- the window ---------------------------------------------------------

  lemma FirstWindowed(w: World, slot: Slot, i: nat)
    requires Placed(w) && Accounted(w) && Windowed(w)
    requires !w.q.setup.lanes && i < |w.q.waiting| && slot !in w.out
    ensures var (q, a) := TakeFirst(w.q, i);
            Windowed(HandStep(w, slot, q, a.ticket))
  {
    var (q, a) := TakeFirst(w.q, i);
    var c := w.q.waiting[i];
    assert c in w.q.waiting;
    assert w.place[c] == Unclaimed && c !in w.q.running;
    var w' := HandStep(w, slot, q, a.ticket);
    assert forall s :: w'.q.affinity.Held(s) == w.q.affinity.Held(s);
    AppendMembers(w.q.running, c);
    forall s | s in w.out
      ensures w.out[s].kase != c
    {
      assert w.place[w.out[s].kase] == RunningOn(s);
    }
  }

  lemma FirstQuiet(w: World, slot: Slot, i: nat)
    requires Quiet(w) && !w.q.setup.lanes && i < |w.q.waiting| && slot !in w.out
    ensures var (q, a) := TakeFirst(w.q, i);
            Quiet(HandStep(w, slot, q, a.ticket))
  {}

  lemma RetryWindowed(w: World, slot: Slot, i: nat)
    requires Placed(w) && Accounted(w) && Windowed(w) && Quiet(w) && Crewed(w)
    requires !w.q.setup.lanes && w.q.waiting == [] && w.q.inFlight == 0 && i < |w.q.retries.queue| && slot !in w.out
    ensures var (q, a) := TakeRetry(w.q, i);
            a.ticket.retry > 0 && Windowed(HandStep(w, slot, q, a.ticket)) && Quiet(HandStep(w, slot, q, a.ticket))
  {
    var (q, a) := TakeRetry(w.q, i);
    var c := w.q.retries.queue[i];
    assert c in w.q.retries.queue;
    assert CaseAsPlaced(w, c);
    var w' := HandStep(w, slot, q, a.ticket);
    assert w.out == map[];
    assert forall s :: w'.q.affinity.Held(s) == w.q.affinity.Held(s);
    assert w'.out.Keys == {slot};
  }

  lemma {:induction false} StopMembers(running: seq<Case>, c: Case)
    requires NoDup(running)
    ensures NoDup(StopRunning(running, c))
    ensures forall x :: x in StopRunning(running, c) <==> x in running && x != c
  {
    if running != [] && running[0] != c {
      StopMembers(running[1..], c);
      AppendFront(running[0], StopRunning(running[1..], c));
      assert running == [running[0]] + running[1..];
    }
  }

  lemma AppendFront<T>(x: T, s: seq<T>)
    requires NoDup(s) && x !in s
    ensures NoDup([x] + s)
  {}

  lemma FinishedWindowed(w: World, slot: Slot, success: bool, hasCore: bool)
    requires Placed(w) && Accounted(w) && Windowed(w) && slot in w.out && !w.q.setup.lanes
    ensures Windowed(FinishStep(w, slot, success, hasCore))
  {
    var t := w.out[slot];
    assert CaseAsPlaced(w, t.kase);
    FinishQueues(w.q, t, success, hasCore);
    StopMembers(w.q.running, t.kase);
    forall s | s in w.out && s != slot
      ensures w.out[s].kase != t.kase
    {
      assert w.place[w.out[s].kase] == RunningOn(s);
    }
  }

  lemma FinishedQuiet(w: World, slot: Slot, success: bool, hasCore: bool)
    requires Quiet(w) && slot in w.out && !w.q.setup.lanes
    ensures Quiet(FinishStep(w, slot, success, hasCore))
  {
    var w' := FinishStep(w, slot, success, hasCore);
    assert w'.q.waiting == w.q.waiting;
    forall s | s in w'.out
      ensures w'.out[s].retry == 0
    {
      if w.out[s].retry > 0 {
        SubsetSize({s, slot}, w.out.Keys);
      }
    }
  }

  lemma SubsetSize<T>(a: set<T>, b: set<T>)
    requires a <= b
    ensures |a| <= |b|
  {
    assert b == a + (b - a);
  }

  // ---- the owners ---------------------------------------------------------

  lemma HeldOwned(w: World, slot: Slot)
    requires Placed(w) && Accounted(w) && Owned(w) && w.q.setup.lanes && w.q.affinity.Held(slot) != []
    ensures var (q, a) := TakeHeld(w.q, slot);
            Owned(HandStep(w, slot, q, a.ticket))
  {
    var (q, a) := TakeHeld(w.q, slot);
    var owner, c := w.q.affinity.owner, a.ticket.kase;
    HeldPlaces(w, slot);
    assert owner[c.dir] == slot;
    RunPlacesOwned(owner, w.place, HandStep(w, slot, q, a.ticket).place, slot, c);
    RunOutOwned(owner, w.out, slot, a.ticket);
    RunLogOwned(owner, w.log, slot, a.ticket);
  }

  lemma RunPlacesOwned(owner: map<string, Slot>, place: map<Case, Place>, place': map<Case, Place>, slot: Slot, c: Case)
    requires PlacesOwned(owner, place) && c in place && place[c] == KeptFor(slot) && place'.Keys == place.Keys
    requires forall d :: d in place ==> place'[d] == if d == c then RunningOn(slot) else place[d]
    ensures PlacesOwned(owner, place')
  {}

  lemma RunOutOwned(owner: map<string, Slot>, out: map<Slot, Ticket>, slot: Slot, t: Ticket)
    requires OutOwned(owner, out) && t.kase.dir in owner && owner[t.kase.dir] == slot
    ensures OutOwned(owner, out[slot := t])
  {}

  lemma RunLogOwned(owner: map<string, Slot>, log: seq<Issue>, slot: Slot, t: Ticket)
    requires LogOwned(owner, log) && t.kase.dir in owner && owner[t.kase.dir] == slot
    ensures LogOwned(owner, log + [Issue(slot, t)])
  {}

  lemma HeldPlaces(w: World, slot: Slot)
    requires Placed(w) && Accounted(w) && w.q.affinity.Held(slot) != []
    ensures var (q, a) := TakeHeld(w.q, slot);
            var c := a.ticket.kase;
            var w' := HandStep(w, slot, q, a.ticket);
            && w'.place.Keys == w.place.Keys && c in w.place && w.place[c] == KeptFor(slot)
            && forall d :: d in w.place ==> w'.place[d] == if d == c then RunningOn(slot) else w.place[d]
  {
    assert w.q.affinity.Held(slot)[0] in w.q.affinity.Held(slot);
    forall d | d in w.place
      ensures w.place[d] == Unclaimed ==> d in w.q.waiting
    {
      assert CaseAsPlaced(w, d);
    }
  }

  lemma DirPlaces(w: World, slot: Slot, i: nat)
    requires Placed(w) && Accounted(w) && Owned(w) && w.q.setup.lanes && i < |w.q.waiting|
    ensures var (q, a) := TakeDir(w.q, slot, i);
            var c := w.q.waiting[i];
            var w' := HandStep(w, slot, q, a.ticket);
            c.dir !in w.q.affinity.owner && DirKept(w.place, w'.place, slot, c)
  {
    var c := w.q.waiting[i];
    assert c in w.q.waiting;
    assert w.place[c] == Unclaimed;
    DirWaits(w, c.dir);
    FilterMembers(w.q.waiting, Elsewhere(c.dir));
    PlacesKept(w.place, w.q.waiting, Filter(w.q.waiting, Elsewhere(c.dir)), slot, c);
  }

  /** The case runs, the others of its directory are kept for the slot, and the rest are where they were. */
  ghost predicate DirKept(place: map<Case, Place>, place': map<Case, Place>, slot: Slot, c: Case) {
    && place'.Keys == place.Keys
    && forall d :: d in place ==>
         place'[d] == if d == c then RunningOn(slot) else if d.dir == c.dir then KeptFor(slot) else place[d]
  }

  lemma PlacesKept(place: map<Case, Place>, waiting: seq<Case>, rest: seq<Case>, slot: Slot, c: Case)
    requires forall d :: d in place && d.dir == c.dir ==> place[d] == Unclaimed
    requires forall d :: d in place && place[d] == Unclaimed ==> d in waiting
    requires forall d :: d in rest <==> d in waiting && d.dir != c.dir
    ensures DirKept(place, PlacesAfterClaim(place, rest, slot, c), slot, c)
  {}

  /** A directory no slot owns waits as a whole. */
  lemma DirWaits(w: World, dir: string)
    requires Placed(w) && Owned(w) && w.q.setup.lanes && dir !in w.q.affinity.owner
    ensures forall d :: d in w.place && d.dir == dir ==> w.place[d] == Unclaimed
    ensures forall d :: d in w.place && w.place[d] == Unclaimed ==> d in w.q.waiting
  {
    forall d | d in w.place && w.place[d] == Unclaimed
      ensures d in w.q.waiting
    {
      assert CaseAsPlaced(w, d);
    }
  }

  lemma DirOwned(w: World, slot: Slot, i: nat)
    requires Placed(w) && Accounted(w) && Owned(w) && w.q.setup.lanes && i < |w.q.waiting| && slot in w.workers
    ensures var (q, a) := TakeDir(w.q, slot, i);
            Owned(HandStep(w, slot, q, a.ticket))
  {
    var (q, a) := TakeDir(w.q, slot, i);
    var owner, c := w.q.affinity.owner, w.q.waiting[i];
    DirPlaces(w, slot, i);
    DirHeld(w.q, slot, i);
    OutHasOwners(w);
    DirPlacesOwned(owner, w.place, HandStep(w, slot, q, a.ticket).place, slot, c);
    RunOutOwned(owner[c.dir := slot], w.out, slot, a.ticket);
    RunLogOwned(owner[c.dir := slot], w.log, slot, a.ticket);
  }

  lemma OutHasOwners(w: World)
    requires Accounted(w) && Owned(w) && w.q.setup.lanes
    ensures forall s :: s in w.out ==> w.out[s].kase.dir in w.q.affinity.owner
  {
    forall s | s in w.out
      ensures w.out[s].kase.dir in w.q.affinity.owner
    {
      assert w.place[w.out[s].kase] == RunningOn(s);
    }
  }

  lemma DirPlacesOwned(owner: map<string, Slot>, place: map<Case, Place>, place': map<Case, Place>, slot: Slot, c: Case)
    requires PlacesOwned(owner, place) && c.dir !in owner && DirKept(place, place', slot, c)
    ensures PlacesOwned(owner[c.dir := slot], place')
  {}

  lemma FinishedOwned(w: World, slot: Slot, success: bool, hasCore: bool)
    requires Placed(w) && Accounted(w) && Owned(w) && Crewed(w) && slot in w.out && w.q.setup.lanes
    ensures Owned(FinishStep(w, slot, success, hasCore))
  {
    var t := w.out[slot];
    assert CaseAsPlaced(w, t.kase);
    assert w.place[t.kase] == RunningOn(slot);
    FinishQueues(w.q, t, success, hasCore);
    EndPlacesOwned(w.q.affinity.owner, w.place, slot, t.kase, PlaceAfterFinish(w.q, t, success, hasCore));
    EndOutOwned(w.q.affinity.owner, w.out, slot);
  }

  lemma EndPlacesOwned(owner: map<string, Slot>, place: map<Case, Place>, slot: Slot, c: Case, to: Place)
    requires PlacesOwned(owner, place) && c in place && place[c] == RunningOn(slot)
    requires to == Settled || (to == KeptFor(slot) && c.dir in owner && owner[c.dir] == slot)
    ensures PlacesOwned(owner, place[c := to])
  {}

  lemma EndOutOwned(owner: map<string, Slot>, out: map<Slot, Ticket>, slot: Slot)
    requires OutOwned(owner, out)
    ensures OutOwned(owner, out - {slot})
  {}

  // ---- those told there is no more ----------------------------------------

  lemma HandedTold(w: World, slot: Slot, q: QueueState, t: Ticket, swept: seq<Case>)
    requires Told(w) && Hands(w, slot, q, t, swept) && slot in w.workers && slot !in w.done
    ensures Told(HandStep(w, slot, q, t))
  {
    if !w.q.stopped {
      forall s | s in w.done
        ensures q.affinity.Held(s) == []
      {
        SubEmpty(q.affinity.Held(s), w.q.affinity.Held(s));
      }
    }
  }

  lemma DepartTold(w: World, slot: Slot, meter: Meter)
    requires Told(w) && Crewed(w) && Enabled(w, Claim(slot, meter))
    requires ClaimOnce(w.q, slot, w.workers[slot], meter).1 == NoMore
    ensures Told(ClaimStep(w, slot, meter))
  {
    if !w.q.stopped {
      var lane := w.workers[slot];
      var w' := ClaimStep(w, slot, meter);
      assert w'.q == w.q.(departed := w.q.departed + {slot});
      forall c | c in w.q.waiting
        ensures w.q.setup.lanes && !Serves(lane, w.q.setup.laneOf, c.dir)
      {
        ServesIsMatch(w.q.setup.laneOf, c, lane);
        var k :| 0 <= k < |w.q.waiting| && w.q.waiting[k] == c;
        assert !InLane(w.q.setup.laneOf, lane)(w.q.waiting[k]);
      }
      if !w.q.setup.lanes && w.q.retries.queue != [] {
        assert Retryable(false, w.q.setup.laneOf, lane)(w.q.retries.queue[0]);
        assert |w.out| > 0;
        var s :| s in w.out;
        assert s in w.workers.Keys && s !in w'.done;
      }
    }
  }

  lemma FinishedTold(w: World, slot: Slot, success: bool, hasCore: bool)
    requires Placed(w) && Accounted(w) && Told(w) && Crewed(w) && slot in w.out
    ensures Told(FinishStep(w, slot, success, hasCore))
  {
    assert CaseAsPlaced(w, w.out[slot].kase);
    FinishQueues(w.q, w.out[slot], success, hasCore);
    assert slot in w.workers.Keys && slot !in w.done;
  }
}
