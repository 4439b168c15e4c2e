/**
 What the case queue promises, on values.

 The queue of the source keeps its untaken cases in one of two ways: a window that shifts in
 place (no lanes), or a taken bit per case and a cursor per lane (lanes, or affinity).  Here both
 are one sequence, `waiting`.  DispatchQueue is the source's own representation, proved to refine
 the functions of this module.
 */
module DispatchModel {
  import opened Prelude

  type Slot = string

  /** A case: its path, and the directory DirOf cuts from it. */
  datatype Case = Case(path: string, dir: string)

  datatype Lane = LaneAny | LaneFast | LaneSlow

  /** One attempt at one case; retry is 0 for the first. */
  datatype Ticket = Ticket(kase: Case, retry: nat)

  datatype Answer = Handed(ticket: Ticket) | NoMore | Again

  // ---- directories --------------------------------------------------------

  const CASES := "/cases/"

  predicate CasesAt(path: string, at: nat) {
    at + |CASES| <= |path| && path[at..at + |CASES|] == CASES
  }

  /** The last place of the cases segment, no further than at. */
  function LastCases(path: string, at: nat): (r: Option<nat>)
    ensures r.Some? ==> r.value <= at && CasesAt(path, r.value) && forall k :: r.value < k <= at ==> !CasesAt(path, k)
    ensures r.None? ==> forall k: nat :: k <= at ==> !CasesAt(path, k)
  {
    if CasesAt(path, at) then Some(at)
    else if at == 0 then None
    else LastCases(path, at - 1)
  }

  /** The cases directory a case runs in: the unit a lane and a slot are given. */
  function DirOf(path: string): string {
    match LastCases(path, |path|)
    case Some(at) => path[..at + |CASES| - 1]
    case None => path
  }

  function CaseAt(path: string): Case {
    Case(path, DirOf(path))
  }

  /** The cases of one cases directory have that directory, whatever stands above it; a path without one is its own. */
  lemma DirOfCase(dir: string, name: string)
    requires '/' !in name
    ensures CaseAt(dir + "/cases/" + name).dir == dir + "/cases"
    ensures (forall k: nat :: !CasesAt(dir, k)) ==> CaseAt(dir).dir == dir
  {
    var path := dir + CASES + name;
    assert path[|dir|..|dir| + |CASES|] == CASES;
    assert CasesAt(path, |dir|);
    forall k | |dir| < k <= |path|
      ensures !CasesAt(path, k)
    {
      if k + |CASES| <= |path| {
        assert path[k + 6] == name[k + 6 - |dir| - |CASES|];
        assert path[k..k + |CASES|][6] != CASES[6];
      }
    }
    assert LastCases(path, |path|) == Some(|dir|);
    assert path[..|dir| + |CASES| - 1] == dir + "/cases";
  }

  function InDir(dir: string): Case -> bool {
    (c: Case) => c.dir == dir
  }

  function Elsewhere(dir: string): Case -> bool {
    (c: Case) => c.dir != dir
  }

  // ---- admission ----------------------------------------------------------

  datatype Reading = Reading(used: int, limit: int)

  /** What a gauge reads: by scan, by the case being judged, and by resource. */
  type Meter = (nat, Case, string) -> Reading

  /** Always is the source's nil policy. */
  datatype Policy =
    | Always
    | HeavyCap(heavy: set<Case>, max: int)
    | Headroom(what: string, percent: int)
    | All(members: seq<Policy>)

  function HeavyCount(heavy: set<Case>, running: seq<Case>): nat {
    if running == [] then 0
    else HeavyCount(heavy, running[..|running| - 1]) + (if running[|running| - 1] in heavy then 1 else 0)
  }

  predicate Admits(p: Policy, pass: nat, c: Case, running: seq<Case>, meter: Meter) {
    match p
    case Always => true
    case HeavyCap(heavy, max) => c !in heavy || HeavyCount(heavy, running) < max
    case Headroom(what, percent) =>
      var r := meter(pass, c, what);
      r.limit <= 0 || r.used * 100 < r.limit * percent
    case All(members) => forall m | m in members :: Admits(m, pass, c, running, meter)
  }

  function Allowed(hard: Policy, soft: Policy, pass: nat, running: seq<Case>, meter: Meter): Case -> bool {
    c => Admits(hard, pass, c, running, meter) && Admits(soft, pass, c, running, meter)
  }

  // ---- the queue ----------------------------------------------------------

  /** What is set before the first claim. */
  datatype Setup = Setup(maxRetry: int, hard: Policy, soft: Policy, laneOf: map<string, Lane>, lanes: bool)

  /** The retries: those of the general queue, each case's number, and the cases that wait for one. */
  datatype Retries = Retries(queue: seq<Case>, count: map<Case, nat>, queued: set<Case>)
  {
    function No(c: Case): nat {
      if c in count then count[c] else 0
    }
  }

  /** Slot affinity: the slot that owns a directory, and the cases kept for a slot. */
  datatype Affinity = Affinity(owner: map<string, Slot>, held: map<Slot, seq<Case>>)
  {
    function Held(slot: Slot): seq<Case> {
      if slot in held then held[slot] else []
    }

    function Keep(slot: Slot, more: seq<Case>): Affinity {
      if more == [] then this else Affinity(owner, held[slot := Held(slot) + more])
    }

    /** The slot owns the directory of the waiting case at i and is kept the rest of it. */
    function Own(waiting: seq<Case>, slot: Slot, i: nat): Affinity
      requires i < |waiting|
    {
      var dir := waiting[i].dir;
      Affinity(owner[dir := slot], held).Keep(slot, Filter(waiting[i + 1..], InDir(dir)))
    }
  }

  datatype QueueState = QueueState(
    setup: Setup,
    waiting: seq<Case>,
    running: seq<Case>,
    inFlight: nat,
    retries: Retries,
    affinity: Affinity,
    departed: set<Slot>,
    stopped: bool)

  function New(cases: seq<Case>, maxRetry: int): QueueState {
    QueueState(Setup(maxRetry, Always, Always, map[], false), cases, [], 0,
               Retries([], map[], {}), Affinity(map[], map[]), {}, false)
  }

  predicate LaneMatch(laneOf: map<string, Lane>, c: Case, want: Lane) {
    want == LaneAny ||
    (if c.dir in laneOf then laneOf[c.dir] else LaneFast) == want
  }

  function InLane(laneOf: map<string, Lane>, want: Lane): Case -> bool {
    c => LaneMatch(laneOf, c, want)
  }

  function Retryable(lanes: bool, laneOf: map<string, Lane>, want: Lane): Case -> bool {
    c => !lanes || LaneMatch(laneOf, c, want)
  }

  /** The waiting case a claimant without lanes is given. */
  function Admissible(setup: Setup, waiting: seq<Case>, running: seq<Case>, meter: Meter): (r: Option<nat>)
    ensures r.Some? ==> r.value < |waiting|
  {
    if waiting == [] then None
    else
      var both := FirstIndex(waiting, Allowed(setup.hard, setup.soft, 0, running, meter));
      if both.Some? then both
      else
        var must := FirstIndex(waiting, Allowed(setup.hard, Always, 1, running, meter));
        if must.Some? then must
        else if running == [] then Some(0)
        else None
  }

  function TakeHeld(q: QueueState, slot: Slot): (QueueState, Answer)
    requires q.affinity.Held(slot) != []
  {
    var held := q.affinity.Held(slot);
    (q.(affinity := q.affinity.(held := q.affinity.held[slot := held[1..]]),
        retries := q.retries.(queued := q.retries.queued - {held[0]}),
        inFlight := q.inFlight + 1),
     Handed(Ticket(held[0], q.retries.No(held[0]))))
  }

  function TakeFirst(q: QueueState, i: nat): (QueueState, Answer)
    requires i < |q.waiting|
  {
    var c := q.waiting[i];
    (q.(waiting := Remove(q.waiting, i), running := q.running + [c], inFlight := q.inFlight + 1),
     Handed(Ticket(c, 0)))
  }

  /** The case at i and, with it, the rest of its directory, held for the slot. */
  function TakeDir(q: QueueState, slot: Slot, i: nat): (QueueState, Answer)
    requires i < |q.waiting|
  {
    var c := q.waiting[i];
    (q.(waiting := Filter(q.waiting, Elsewhere(c.dir)),
        running := q.running + [c],
        inFlight := q.inFlight + 1,
        affinity := q.affinity.Own(q.waiting, slot, i)),
     Handed(Ticket(c, 0)))
  }

  function TakeRetry(q: QueueState, i: nat): (QueueState, Answer)
    requires i < |q.retries.queue|
  {
    var c := q.retries.queue[i];
    (q.(retries := Retries(Remove(q.retries.queue, i), q.retries.count, q.retries.queued - {c}),
        inFlight := q.inFlight + 1),
     Handed(Ticket(c, q.retries.No(c))))
  }

  /** The first pass is over for the claimant: a retry if nothing runs, or it departs. */
  function TakeQuiet(q: QueueState, slot: Slot, lane: Lane): (QueueState, Answer) {
    var at := FirstIndex(q.retries.queue, Retryable(q.setup.lanes, q.setup.laneOf, lane));
    if q.inFlight == 0 && at.Some? then TakeRetry(q, at.value)
    else (q.(departed := q.departed + {slot}), NoMore)
  }

  /** A claim with lanes off: the window, then a wait, then a retry. */
  function ClaimWindow(q: QueueState, slot: Slot, lane: Lane, meter: Meter): (QueueState, Answer) {
    var at := Admissible(q.setup, q.waiting, q.running, meter);
    if at.Some? then TakeFirst(q, at.value)
    else if q.waiting != [] then (q, Again)
    else TakeQuiet(q, slot, lane)
  }

  /** A claim with lanes on: a directory of the lane, then a retry. */
  function ClaimLane(q: QueueState, slot: Slot, lane: Lane): (QueueState, Answer) {
    var at := FirstIndex(q.waiting, InLane(q.setup.laneOf, lane));
    if at.Some? then TakeDir(q, slot, at.value) else TakeQuiet(q, slot, lane)
  }

  /** One attempt at a claim: what the slot is told, and the queue after. */
  function ClaimOnce(q: QueueState, slot: Slot, lane: Lane, meter: Meter): (QueueState, Answer) {
    if q.stopped then (q, NoMore)
    else if q.affinity.Held(slot) != [] then TakeHeld(q, slot)
    else if q.setup.lanes then ClaimLane(q, slot, lane)
    else ClaimWindow(q, slot, lane, meter)
  }

  function StopRunning(running: seq<Case>, c: Case): seq<Case> {
    if running == [] then []
    else if running[0] == c then running[1..]
    else [running[0]] + StopRunning(running[1..], c)
  }

  function Enqueue(q: QueueState, c: Case, retry: nat): QueueState {
    if retry > q.setup.maxRetry then q
    else
      var count := q.retries.count[c := retry];
      if c in q.retries.queued then q.(retries := q.retries.(count := count))
      else
        var owner := q.affinity.owner;
        var queued := q.retries.queued + {c};
        if q.setup.lanes && c.dir in owner && owner[c.dir] !in q.departed then
          q.(retries := Retries(q.retries.queue, count, queued), affinity := q.affinity.Keep(owner[c.dir], [c]))
        else
          q.(retries := Retries(q.retries.queue + [c], count, queued))
  }

  predicate WillRetry(maxRetry: int, t: Ticket, success: bool, hasCore: bool) {
    !success && !hasCore && t.retry < maxRetry
  }

  function Complete(q: QueueState, t: Ticket, success: bool, hasCore: bool): QueueState {
    var q' := q.(inFlight := if q.inFlight > 0 then q.inFlight - 1 else 0,
                 running := StopRunning(q.running, t.kase));
    if WillRetry(q.setup.maxRetry, t, success, hasCore) then Enqueue(q', t.kase, t.retry + 1)
    else
      var r := q.retries;
      q'.(retries := r.(count := r.count - {t.kase}, queued := r.queued - {t.kase}))
  }

  function Stop(q: QueueState): QueueState {
    q.(stopped := true)
  }

  /** Nothing for a claimant that arrives now. */
  predicate Drained(q: QueueState) {
    q.stopped || (q.retries.queue == [] && q.waiting == [])
  }

  predicate Finished(q: QueueState) {
    q.stopped ||
    (q.retries.queue == [] && q.inFlight == 0 && q.waiting == [] &&
     forall s | s in q.affinity.held :: q.affinity.held[s] == [])
  }
}
