/**
 The queue and its claimants, as a state machine.

 A world is a queue, the ticket each slot holds, the slots that were told there is no more work,
 the log of every ticket issued, and where each case is.  One worker claims for each slot: it
 claims when it holds nothing, completes the ticket it holds, and leaves when it is told there is
 no more.  The claims and completions of all the slots interleave in any order.
 */
module DispatchWorld {
  import opened Prelude
  import opened DispatchModel

  datatype Place = Unclaimed | KeptFor(slot: Slot) | InRetryQueue | RunningOn(slot: Slot) | Settled

  datatype Issue = Issue(slot: Slot, ticket: Ticket)

  datatype World = World(
    corpus: seq<Case>,
    workers: map<Slot, Lane>,
    q: QueueState,
    place: map<Case, Place>,
    out: map<Slot, Ticket>,
    done: set<Slot>,
    log: seq<Issue>)

  datatype Event =
    | Claim(slot: Slot, meter: Meter)
    | Finish(slot: Slot, success: bool, hasCore: bool)
    | Cancel

  // ---- steps --------------------------------------------------------------

  function PlacesAfterClaim(place: map<Case, Place>, waiting: seq<Case>, slot: Slot, c: Case): map<Case, Place> {
    map d | d in place ::
      if d == c then RunningOn(slot)
      else if place[d] == Unclaimed && d !in waiting then KeptFor(slot)
      else place[d]
  }

  function ClaimStep(w: World, slot: Slot, meter: Meter): World
    requires slot in w.workers
  {
    var (q, answer) := ClaimOnce(w.q, slot, w.workers[slot], meter);
    match answer
    case Again => w.(q := q)
    case NoMore => w.(q := q, done := w.done + {slot})
    case Handed(t) => HandStep(w, slot, q, t)
  }

  function HandStep(w: World, slot: Slot, q: QueueState, t: Ticket): World {
    w.(q := q, out := w.out[slot := t], log := w.log + [Issue(slot, t)],
       place := PlacesAfterClaim(w.place, q.waiting, slot, t.kase))
  }

  function PlaceAfterFinish(q: QueueState, t: Ticket, success: bool, hasCore: bool): Place {
    var owner := q.affinity.owner;
    if !WillRetry(q.setup.maxRetry, t, success, hasCore) then Settled
    else if q.setup.lanes && t.kase.dir in owner && owner[t.kase.dir] !in q.departed then KeptFor(owner[t.kase.dir])
    else InRetryQueue
  }

  function FinishStep(w: World, slot: Slot, success: bool, hasCore: bool): World
    requires slot in w.out
  {
    var t := w.out[slot];
    w.(q := Complete(w.q, t, success, hasCore), out := w.out - {slot},
       place := w.place[t.kase := PlaceAfterFinish(w.q, t, success, hasCore)])
  }

  predicate Enabled(w: World, e: Event) {
    match e
    case Claim(slot, _) => slot in w.workers && slot !in w.out && slot !in w.done
    case Finish(slot, _, _) => slot in w.out
    case Cancel => true
  }

  function Step(w: World, e: Event): World
    requires Enabled(w, e)
  {
    match e
    case Claim(slot, meter) => ClaimStep(w, slot, meter)
    case Finish(slot, success, hasCore) => FinishStep(w, slot, success, hasCore)
    case Cancel => w.(q := Stop(w.q))
  }

  /** Distinct cases, and the lanes and the policy set before the first claim. */
  ghost predicate Init(w: World) {
    && NoDup(w.corpus)
    && w.q == New(w.corpus, w.q.setup.maxRetry).(setup := w.q.setup)
    && w.place == (map c | c in w.corpus :: Unclaimed)
    && w.out == map[] && w.done == {} && w.log == []
  }

  ghost predicate Behavior(ws: seq<World>, es: seq<Event>) {
    && |ws| == |es| + 1
    && Init(ws[0])
    && forall i :: 0 <= i < |es| ==> Enabled(ws[i], es[i]) && ws[i + 1] == Step(ws[i], es[i])
  }

  // ---- what is counted ----------------------------------------------------

  /** The tickets issued for a case. */
  ghost function Tries(log: seq<Issue>, c: Case): nat {
    if log == [] then 0
    else Tries(log[..|log| - 1], c) + (if log[|log| - 1].ticket.kase == c then 1 else 0)
  }

  lemma TriesStep(log: seq<Issue>, e: Issue)
    ensures forall c :: Tries(log + [e], c) == Tries(log, c) + (if e.ticket.kase == c then 1 else 0)
  {
    assert (log + [e])[..|log|] == log;
  }

  ghost function Rank(corpus: seq<Case>, c: Case): nat
    requires c in corpus
    ensures Rank(corpus, c) < |corpus| && corpus[Rank(corpus, c)] == c
  {
    var i :| 0 <= i < |corpus| && corpus[i] == c;
    i
  }

  /** s lists cases of the corpus, each once, in corpus order. */
  ghost predicate Ordered(corpus: seq<Case>, s: seq<Case>) {
    && (forall c :: c in s ==> c in corpus)
    && forall i, j :: 0 <= i < j < |s| ==> Rank(corpus, s[i]) < Rank(corpus, s[j])
  }

  ghost function Cap(w: World): nat {
    if w.q.setup.maxRetry < 0 then 0 else w.q.setup.maxRetry
  }

  // ---- the invariant ------------------------------------------------------

  /** What the place of a case says of the queue, of the slots and of its retry number. */
  ghost predicate CaseAsPlaced(w: World, c: Case)
    requires c in w.place
  {
    var tries := Tries(w.log, c);
    && tries <= Cap(w) + 1
    && (tries == 0 ==> c !in w.q.retries.count)
    && match w.place[c]
       case Unclaimed =>
         c in w.q.waiting && tries == 0 && c !in w.q.retries.queued
       case KeptFor(slot) =>
         c in w.q.affinity.Held(slot) && (tries > 0 ==> tries <= w.q.setup.maxRetry) &&
         w.q.retries.No(c) == tries && (c in w.q.retries.queued <==> tries > 0)
       case InRetryQueue =>
         c in w.q.retries.queue && 0 < tries <= w.q.setup.maxRetry &&
         w.q.retries.No(c) == tries && c in w.q.retries.queued
       case RunningOn(slot) =>
         slot in w.out && w.out[slot].kase == c && w.out[slot].retry + 1 == tries && c !in w.q.retries.queued
       case Settled =>
         tries > 0 && c !in w.q.retries.queued
  }

  ghost predicate Placed(w: World) {
    && w.place.Keys == (set c | c in w.corpus)
    && forall c :: c in w.place ==> CaseAsPlaced(w, c)
  }

  /** Every case the queue or a slot has is placed there. */
  ghost predicate Accounted(w: World) {
    && (forall c :: c in w.q.waiting ==> c in w.place && w.place[c] == Unclaimed)
    && (forall s, c :: c in w.q.affinity.Held(s) ==> c in w.place && w.place[c] == KeptFor(s))
    && (forall c :: c in w.q.retries.queue ==> c in w.place && w.place[c] == InRetryQueue)
    && (forall s :: s in w.out ==> w.out[s].kase in w.place && w.place[w.out[s].kase] == RunningOn(s))
  }

  ghost predicate Listed(w: World) {
    && NoDup(w.corpus)
    && Ordered(w.corpus, w.q.waiting)
    && NoDup(w.q.retries.queue)
    && forall s :: NoDup(w.q.affinity.Held(s))
  }

  ghost predicate Crewed(w: World) {
    && w.q.inFlight == |w.out|
    && w.out.Keys <= w.workers.Keys
    && w.done <= w.workers.Keys
    && w.done !! w.out.Keys
    && w.q.departed <= w.done
  }

  /** Tickets are numbered from 0 with no gap. */
  ghost predicate Numbered(w: World) {
    forall i :: 0 <= i < |w.log| ==>
      w.log[i].ticket.kase in w.corpus && w.log[i].ticket.retry == Tries(w.log[..i], w.log[i].ticket.kase)
  }

  /** With lanes off nothing is kept for a slot, and running lists the first attempts that run. */
  ghost predicate Windowed(w: World) {
    !w.q.setup.lanes ==>
      && w.q.affinity.owner == map[]
      && (forall s :: w.q.affinity.Held(s) == [])
      && NoDup(w.q.running)
      && (forall s :: s in w.out ==> (w.out[s].retry == 0 <==> w.out[s].kase in w.q.running))
      && (forall c :: c in w.q.running ==> c in w.place && w.place[c].RunningOn?)
  }

  /** With lanes off a retry runs alone, and after the first pass. */
  ghost predicate Quiet(w: World) {
    !w.q.setup.lanes ==>
      && (forall s :: s in w.out && w.out[s].retry > 0 ==> w.q.waiting == [] && |w.out| == 1)
      && (forall i :: 0 <= i < |w.log| && w.log[i].ticket.retry > 0 ==> w.q.waiting == [])
      && (forall i, j :: 0 <= i < j < |w.log| && w.log[i].ticket.retry > 0 ==> w.log[j].ticket.retry > 0)
  }

  /** With lanes on a directory has one owner, and only its owner has its cases. */
  ghost predicate Owned(w: World) {
    var owner := w.q.affinity.owner;
    w.q.setup.lanes ==>
      && w.q.retries.queue == []
      && (forall d :: d in owner ==> owner[d] in w.workers)
      && PlacesOwned(owner, w.place) && OutOwned(owner, w.out) && LogOwned(owner, w.log)
  }

  ghost predicate PlacesOwned(owner: map<string, Slot>, place: map<Case, Place>) {
    && (forall c :: c in place ==> (place[c] == Unclaimed <==> c.dir !in owner))
    && (forall c, s :: c in place && place[c] == KeptFor(s) && c.dir in owner ==> owner[c.dir] == s)
  }

  ghost predicate OutOwned(owner: map<string, Slot>, out: map<Slot, Ticket>) {
    forall s :: s in out && out[s].kase.dir in owner ==> owner[out[s].kase.dir] == s
  }

  ghost predicate LogOwned(owner: map<string, Slot>, log: seq<Issue>) {
    forall i :: 0 <= i < |log| ==>
      log[i].ticket.kase.dir in owner && owner[log[i].ticket.kase.dir] == log[i].slot
  }

  /**
   A claimant of a lane may be given the cases of a directory: it takes any lane, or that of the
   directory, which is the fast one when none is named for it.
   */
  ghost predicate Serves(lane: Lane, laneOf: map<string, Lane>, dir: string) {
    || lane == LaneAny
    || (dir in laneOf && laneOf[dir] == lane)
    || (dir !in laneOf && lane == LaneFast)
  }

  lemma ServesIsMatch(laneOf: map<string, Lane>, c: Case, lane: Lane)
    ensures Serves(lane, laneOf, c.dir) <==> LaneMatch(laneOf, c, lane)
  {}

  /** What was true of a slot when it was told there is no more is still true. */
  ghost predicate Told(w: World) {
    !w.q.stopped ==>
      && w.done <= w.q.departed
      && (forall s :: s in w.done ==> w.q.affinity.Held(s) == [])
      && (forall s, c :: s in w.done && s in w.workers && c in w.q.waiting ==>
            w.q.setup.lanes && !Serves(w.workers[s], w.q.setup.laneOf, c.dir))
      && (w.done == w.workers.Keys && !w.q.setup.lanes ==> w.q.retries.queue == [])
  }

  /** With lanes on the first attempts of a directory come in corpus order. */
  ghost predicate InOrder(w: World) {
    w.q.setup.lanes ==> KeptInOrder(w) && LoggedInOrder(w)
  }

  ghost predicate KeptInOrder(w: World) {
    forall s, i, j :: 0 <= i < j < |w.q.affinity.Held(s)| ==>
      Earlier(w, w.q.affinity.Held(s)[i], w.q.affinity.Held(s)[j])
  }

  ghost predicate LoggedInOrder(w: World) {
    && (forall i, c :: 0 <= i < |w.log| && w.log[i].ticket.retry == 0 && c in w.place ==>
          Behind(w, w.log[i].ticket.kase, c))
    && (forall i, j :: 0 <= i < j < |w.log| && w.log[j].ticket.retry == 0 && w.log[i].ticket.retry == 0 ==>
          Before(w.corpus, w.log[i].ticket.kase, w.log[j].ticket.kase))
  }

  ghost predicate Before(corpus: seq<Case>, c: Case, d: Case) {
    c.dir == d.dir ==> c in corpus && d in corpus && Rank(corpus, c) < Rank(corpus, d)
  }

  /** Of two cases kept that were never tried the one kept first is the earlier. */
  ghost predicate Earlier(w: World, c: Case, d: Case) {
    Tries(w.log, c) == 0 && Tries(w.log, d) == 0 ==>
      c in w.corpus && d in w.corpus && Rank(w.corpus, c) < Rank(w.corpus, d)
  }

  /** A case never tried is behind one of its directory that was. */
  ghost predicate Behind(w: World, c: Case, d: Case) {
    Tries(w.log, d) == 0 ==> Before(w.corpus, c, d)
  }

  /** What every run keeps. */
  ghost predicate Inv(w: World) {
    && Placed(w) && Accounted(w) && Listed(w) && Crewed(w) && Numbered(w)
    && Windowed(w) && Quiet(w) && Owned(w) && InOrder(w) && Told(w)
  }
}
