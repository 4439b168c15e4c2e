/**
 The case queue as the source keeps it: a window over an array that shifts in place, a taken bit
 per case and a cursor per lane, and the maps beside them.  Every method is proved to do to the
 abstract state what the function of the same name in DispatchModel does.
 */
module DispatchQueue {
  import opened Prelude
  import M = DispatchModel

  type Case = M.Case
  type Slot = M.Slot

  lemma KeepStep(a: M.Affinity, slot: Slot, more: seq<Case>, c: Case)
    ensures a.Keep(slot, more + [c]) == a.Keep(slot, more).Keep(slot, [c])
  {
    assert a.Held(slot) + (more + [c]) == (a.Held(slot) + more) + [c];
    if more == [] {
      assert a.Held(slot) + [c] == a.Held(slot) + (more + [c]);
    }
  }

  /** With the first case of a lane, and every case of its directory behind it, the whole directory is taken. */
  lemma DirTaken(all: seq<Case>, before: seq<bool>, after: seq<bool>, laneOf: map<string, M.Lane>, lane: M.Lane, i: nat)
    requires |all| == |before| == |after| && i < |all| && M.LaneMatch(laneOf, all[i], lane)
    requires forall k :: 0 <= k < i ==> before[k] || !M.LaneMatch(laneOf, all[k], lane)
    requires forall k :: 0 <= k < |all| ==> after[k] == (before[k] || k == i || (k > i && all[k].dir == all[i].dir))
    ensures Unmarked(all, after) == Filter(Unmarked(all, before), M.Elsewhere(all[i].dir))
  {
    UnmarkedFilter(all, before, after, M.Elsewhere(all[i].dir));
  }

  lemma OwnIs(a: M.Affinity, waiting: seq<Case>, slot: Slot, i: nat, c: Case, rest: seq<Case>)
    requires i < |waiting| && waiting[i] == c && waiting[i + 1..] == rest
    ensures a.Own(waiting, slot, i) ==
            M.Affinity(a.owner[c.dir := slot], a.held).Keep(slot, Filter(rest, M.InDir(c.dir)))
  {}

  /** What is behind the first of a window whose first i elements moved up by one. */
  lemma Shifted<T>(was: seq<T>, now: seq<T>, i: nat)
    requires |now| == |was| && i < |was|
    requires forall j :: 0 < j <= i ==> now[j] == was[j - 1]
    requires forall j :: i < j < |was| ==> now[j] == was[j]
    ensures now[1..] == Remove(was, i)
  {}

  class Queue {
    const cases: array<Case>
    const taken: array<bool>
    var next: nat
    var maxRetry: int
    var retryQueue: seq<Case>
    var retryCount: map<Case, nat>
    var queued: set<Case>
    var stopped: bool
    var inFlight: nat
    var departed: set<Slot>
    var hard: M.Policy
    var soft: M.Policy
    var running: seq<Case>
    var laneOf: map<string, M.Lane>
    var owner: map<string, Slot>
    var held: map<Slot, seq<Case>>
    var cursor: map<M.Lane, nat>
    var lanes: bool
    ghost var waiting: seq<Case>  // the cases no slot has been given or kept

    ghost predicate Valid()
      reads this`next, this`lanes, this`cursor, this`laneOf, this`waiting, cases, taken
    {
      Sized() && waiting == Rest() && CursorsSound()
    }

    ghost predicate Sized()
      reads this`next, this`lanes, this`cursor, taken
    {
      && taken.Length == cases.Length
      && next <= cases.Length
      && (!lanes ==> cursor == map[] && forall i :: 0 <= i < taken.Length ==> !taken[i])
    }

    /** Below a lane's cursor every case of that lane is taken. */
    ghost predicate CursorsSound()
      requires taken.Length == cases.Length
      reads this`cursor, this`laneOf, cases, taken
    {
      forall l, i :: l in cursor && 0 <= i < cases.Length && i < cursor[l] && M.LaneMatch(laneOf, cases[i], l) ==>
        taken[i]
    }

    ghost function Rest(): seq<Case>
      requires taken.Length == cases.Length && next <= cases.Length
      reads this`next, this`lanes, cases, taken
    {
      if lanes then Unmarked(cases[..], taken[..]) else cases[next..]
    }

    /** The abstract queue. */
    ghost function State(): M.QueueState
      reads this
    {
      M.QueueState(M.Setup(maxRetry, hard, soft, laneOf, lanes), waiting, running, inFlight,
                   M.Retries(retryQueue, retryCount, queued), M.Affinity(owner, held), departed, stopped)
    }

    /** The queue keeps the caller's array and shifts it: it is not copied. */
    constructor (cases: array<Case>, maxRetry: int)
      ensures Valid() && this.cases == cases && fresh(taken)
      ensures State() == M.New(cases[..], maxRetry)
    {
      this.cases := cases;
      this.taken := new bool[cases.Length](_ => false);
      this.next := 0;
      this.maxRetry := maxRetry;
      retryQueue, retryCount, queued := [], map[], {};
      stopped, inFlight, departed := false, 0, {};
      hard, soft, running := M.Always, M.Always, [];
      laneOf, owner, held := map[], map[], map[];
      cursor, lanes := map[], false;
      waiting := cases[..];
    }

    /**
     Puts directories in lanes and turns lanes on; with lanes off before, every case of the array waits
     again. The queue stays valid unless a lane's cursor is past an untaken case that is in it now.
     */
    method Assign(byDir: map<string, M.Lane>)
      requires Valid()
      modifies this`laneOf, this`lanes, this`waiting
      ensures Sized() && waiting == Rest()
      ensures Valid() <==> CursorsSound()
      ensures old(cursor) == map[] || byDir == map[] ==> Valid()
      ensures State() == if byDir == map[] then old(State())
                         else old(State()).(setup := old(State()).setup.(laneOf := old(laneOf) + byDir, lanes := true),
                                            waiting := if old(lanes) then old(waiting) else cases[..])
    {
      if byDir == map[] { return; }
      UnmarkedExtremes(cases[..], taken[..]);
      laneOf := laneOf + byDir;
      lanes := true;
      waiting := Rest();
    }

    method Affinity()
      requires Valid()
      modifies this
      ensures Valid()
      ensures State() == old(State()).(setup := old(State()).setup.(lanes := true),
                                       waiting := if old(lanes) then old(waiting) else cases[..])
    {
      UnmarkedExtremes(cases[..], taken[..]);
      lanes := true;
      waiting := Rest();
    }

    method Policy(hard: M.Policy, soft: M.Policy)
      requires Valid()
      modifies this`hard, this`soft
      ensures Valid() && State() == old(State()).(setup := old(State()).setup.(hard := hard, soft := soft))
    {
      this.hard, this.soft := hard, soft;
    }

    /** Does a policy let c start beside what is running? */
    method Admit(p: M.Policy, pass: nat, c: Case, meter: M.Meter) returns (ok: bool)
      ensures ok == M.Admits(p, pass, c, running, meter)
      decreases p
    {
      match p
      case Always => ok := true;
      case HeavyCap(heavy, max) =>
        if c !in heavy { return true; }
        var n := 0;
        for i := 0 to |running|
          invariant n == M.HeavyCount(heavy, running[..i])
        {
          assert running[..i + 1][..i] == running[..i];
          if running[i] in heavy { n := n + 1; }
        }
        assert running[..|running|] == running;
        ok := n < max;
      case Headroom(what, percent) =>
        var r := meter(pass, c, what);
        ok := r.limit <= 0 || r.used * 100 < r.limit * percent;
      case All(members) =>
        for i := 0 to |members|
          invariant forall k :: 0 <= k < i ==> M.Admits(members[k], pass, c, running, meter)
        {
          ok := Admit(members[i], pass, c, meter);
          if !ok { return; }
        }
        ok := true;
    }

    method ScanPolicy(hard: M.Policy, soft: M.Policy, pass: nat, meter: M.Meter) returns (at: Option<nat>)
      requires Valid() && !lanes
      ensures FirstIndex(waiting, M.Allowed(hard, soft, pass, running, meter)) ==
              if at.None? then None else Some(at.value - next)
      ensures at.Some? ==> next <= at.value < cases.Length
    {
      ghost var p := M.Allowed(hard, soft, pass, running, meter);
      var i := next;
      while i < cases.Length
        invariant next <= i <= cases.Length
        invariant forall k :: next <= k < i ==> !p(cases[k])
      {
        var ok := Admit(hard, pass, cases[i], meter);
        if ok { ok := Admit(soft, pass, cases[i], meter); }
        if ok {
          FirstIndexIs(waiting, p, i - next);
          return Some(i);
        }
        i := i + 1;
      }
      at := None;
    }

    method Admissible(meter: M.Meter) returns (at: Option<nat>)
      requires Valid() && !lanes
      ensures M.Admissible(State().setup, waiting, running, meter) == if at.None? then None else Some(at.value - next)
      ensures at.Some? ==> next <= at.value < cases.Length
    {
      if next >= cases.Length { return None; }
      at := ScanPolicy(hard, soft, 0, meter);
      if at.Some? { return; }
      at := ScanPolicy(hard, M.Always, 1, meter);
      if at.Some? { return; }
      if running == [] { return Some(next); }
      at := None;
    }

    /** Takes the case at i out of the window, the rest in order: the window shifts up by one. */
    method Take(i: nat)
      requires Valid() && !lanes && next <= i < cases.Length
      modifies this`next, this`waiting, cases
      ensures Valid() && next == old(next) + 1
      ensures waiting == Remove(old(waiting), i - old(next))
      ensures cases[..old(next)] == old(cases[..next])
    {
      var k := i;
      ghost var was := waiting;
      while k > next
        invariant waiting == was
        invariant next == old(next) <= k <= i
        invariant forall j :: 0 <= j <= k ==> cases[j] == old(cases[j])
        invariant forall j :: k < j <= i ==> cases[j] == old(cases[j - 1])
        invariant forall j :: i < j < cases.Length ==> cases[j] == old(cases[j])
      {
        cases[k] := cases[k - 1];
        k := k - 1;
      }
      ghost var window := cases[next..];
      Shifted(was, window, i - next);
      next := next + 1;
      assert cases[next..] == window[1..];
      waiting := Remove(waiting, i - old(next));
    }

    method Start(c: Case)
      modifies this`inFlight, this`running
      ensures inFlight == old(inFlight) + 1 && running == old(running) + [c]
    {
      inFlight := inFlight + 1;
      running := running + [c];
    }

    method StopRunning(c: Case)
      modifies this`running
      ensures running == M.StopRunning(old(running), c)
    {
      var i := 0;
      while i < |running|
        invariant i <= |running|
        invariant M.StopRunning(running, c) == running[..i] + M.StopRunning(running[i..], c)
      {
        if running[i] == c {
          running := running[..i] + running[i + 1..];
          return;
        }
        i := i + 1;
      }
    }

    /** The first untaken case of the lane: looked for from the lane's cursor, found as if from 0. */
    method FindInLane(lane: M.Lane) returns (at: Option<nat>)
      requires Valid() && lanes
      ensures at.Some? ==> at.value < cases.Length && !taken[at.value] && M.LaneMatch(laneOf, cases[at.value], lane)
      ensures forall k :: 0 <= k < (if at.Some? then at.value else cases.Length) ==>
                taken[k] || !M.LaneMatch(laneOf, cases[k], lane)
    {
      var i := if lane in cursor then cursor[lane] else 0;
      while i < cases.Length
        invariant forall k :: 0 <= k < i && k < cases.Length ==> taken[k] || !M.LaneMatch(laneOf, cases[k], lane)
      {
        if !taken[i] && M.LaneMatch(laneOf, cases[i], lane) { return Some(i); }
        i := i + 1;
      }
      at := None;
    }

    /** The first untaken case of the lane, and with it the rest of its directory. */
    method Scan(slot: Slot, lane: M.Lane) returns (found: Option<Case>)
      requires Valid() && lanes
      modifies this`cursor, this`owner, this`held, this`waiting, taken
      ensures Valid()
      ensures var was := old(waiting);
              var first := FirstIndex(was, M.InLane(laneOf, lane));
              if found.None? then first.None? && waiting == was && owner == old(owner) && held == old(held)
              else
                && first.Some? && found.value == was[first.value]
                && waiting == Filter(was, M.Elsewhere(found.value.dir))
                && M.Affinity(owner, held) == M.Affinity(old(owner), old(held)).Own(was, slot, first.value)
    {
      ghost var p := M.InLane(laneOf, lane);
      ghost var before := taken[..];
      ghost var all := cases[..];
      var at := FindInLane(lane);
      if at.None? {
        cursor := cursor[lane := cases.Length];
        NoneWanted(all, before, p);
        NoneFound(Unmarked(all, before), p);
        return None;
      }
      var i := at.value;
      ghost var first := FirstWanted(all, before, i, p);
      assert taken[i + 1..] == before[i + 1..] && cases[i + 1..] == all[i + 1..];
      OwnIs(M.Affinity(owner, held), waiting, slot, first, cases[i], Unmarked(cases[i + 1..], taken[i + 1..]));
      assert Behind(i, cases[i].dir) == Filter(Unmarked(cases[i + 1..], taken[i + 1..]), M.InDir(cases[i].dir));
      TakeAt(slot, lane, i);
      found := Some(cases[i]);
    }

    /** The untaken cases of a directory behind position i. */
    ghost function Behind(i: nat, dir: string): seq<Case>
      requires taken.Length == cases.Length && i < cases.Length
      reads cases, taken
    {
      Filter(Unmarked(cases[i + 1..], taken[i + 1..]), M.InDir(dir))
    }

    method TakeAt(slot: Slot, lane: M.Lane, i: nat)
      requires Valid() && lanes && i < cases.Length && M.LaneMatch(laneOf, cases[i], lane)
      requires forall k :: 0 <= k < i ==> taken[k] || !M.LaneMatch(laneOf, cases[k], lane)
      modifies this`cursor, this`owner, this`held, this`waiting, taken
      ensures Valid()
      ensures waiting == Filter(old(waiting), M.Elsewhere(cases[i].dir))
      ensures M.Affinity(owner, held) ==
              M.Affinity(old(owner)[cases[i].dir := slot], old(held)).Keep(slot, old(Behind(i, cases[i].dir)))
    {
      ghost var before := taken[..];
      var dir := cases[i].dir;
      ghost var rest := Behind(i, dir);
      taken[i] := true;
      assert taken[i + 1..] == before[i + 1..];
      assert Behind(i, dir) == rest;
      cursor := cursor[lane := i + 1];
      owner := owner[dir := slot];
      HoldRest(slot, i, dir);
      DirTaken(cases[..], before, taken[..], laneOf, lane, i);
      waiting := Filter(waiting, M.Elsewhere(dir));
    }

    /** Keeps the untaken cases of dir behind position i for the slot. */
    method HoldRest(slot: Slot, i: nat, dir: string)
      requires taken.Length == cases.Length && i < cases.Length
      modifies this`held, taken
      ensures forall k :: 0 <= k < cases.Length ==>
                taken[k] == (old(taken[k]) || (k > i && cases[k].dir == dir))
      ensures M.Affinity(owner, held) == M.Affinity(owner, old(held)).Keep(slot, old(Behind(i, dir)))
    {
      ghost var all, before, a := cases[..], taken[..], M.Affinity(owner, held);
      ghost var got: seq<Case> := [];
      var j := i + 1;
      while j < cases.Length
        invariant i < j <= cases.Length
        invariant forall k :: 0 <= k < cases.Length ==>
          taken[k] == (before[k] || (i < k < j && all[k].dir == dir))
        invariant got == Filter(Unmarked(all[i + 1..j], before[i + 1..j]), M.InDir(dir))
        invariant M.Affinity(owner, held) == a.Keep(slot, got)
      {
        ghost var more := if !before[j] && all[j].dir == dir then [all[j]] else [];
        assert Filter(Unmarked(all[i + 1..j + 1], before[i + 1..j + 1]), M.InDir(dir)) == got + more by {
          UnmarkedStep(all, before, i + 1, j, M.InDir(dir));
        }
        if !taken[j] && cases[j].dir == dir {
          taken[j] := true;
          KeepStep(a, slot, got, cases[j]);
          held := held[slot := (if slot in held then held[slot] else []) + [cases[j]]];
        } else {
          assert got + more == got;
        }
        got := got + more;
        j := j + 1;
      }
      assert all[i + 1..j] == cases[i + 1..];
      assert before[i + 1..j] == old(taken[i + 1..]);
    }

    method Enqueue(c: Case, retry: nat)
      modifies this`retryCount, this`queued, this`held, this`retryQueue
      ensures State() == M.Enqueue(old(State()), c, retry)
    {
      if retry > maxRetry { return; }
      retryCount := retryCount[c := retry];
      if c !in queued {
        queued := queued + {c};
        if lanes && c.dir in owner && owner[c.dir] !in departed {
          var slot := owner[c.dir];
          held := held[slot := (if slot in held then held[slot] else []) + [c]];
        } else {
          retryQueue := retryQueue + [c];
        }
      }
    }

    method ClaimHeld(slot: Slot) returns (answer: M.Answer)
      requires slot in held && held[slot] != []
      modifies this`held, this`queued, this`inFlight
      ensures (State(), answer) == M.TakeHeld(old(State()), slot)
    {
      var c := held[slot][0];
      held := held[slot := held[slot][1..]];
      var retry := if c in retryCount then retryCount[c] else 0;
      queued := queued - {c};
      inFlight := inFlight + 1;
      answer := M.Handed(M.Ticket(c, retry));
    }

    /** Looks for a retry the lane may have, in queue order. */
    method FindRetry(lane: M.Lane) returns (at: Option<nat>)
      ensures at == FirstIndex(retryQueue, M.Retryable(lanes, laneOf, lane))
    {
      ghost var p := M.Retryable(lanes, laneOf, lane);
      for i := 0 to |retryQueue|
        invariant forall k :: 0 <= k < i ==> !p(retryQueue[k])
      {
        if !lanes || M.LaneMatch(laneOf, retryQueue[i], lane) {
          FirstIndexIs(retryQueue, p, i);
          return Some(i);
        }
      }
      at := None;
    }

    method ClaimRetry(i: nat) returns (answer: M.Answer)
      requires i < |retryQueue|
      modifies this`retryQueue, this`queued, this`inFlight
      ensures (State(), answer) == M.TakeRetry(old(State()), i)
    {
      var c := retryQueue[i];
      retryQueue := retryQueue[..i] + retryQueue[i + 1..];
      queued := queued - {c};
      inFlight := inFlight + 1;
      answer := M.Handed(M.Ticket(c, if c in retryCount then retryCount[c] else 0));
    }

    /** What a claimant with lanes off is given of the first pass, if anything. */
    method TakeWindow(meter: M.Meter) returns (found: Option<Case>)
      requires Valid() && !lanes
      modifies this`next, this`waiting, this`inFlight, this`running, cases
      ensures Valid()
      ensures var at := M.Admissible(old(State()).setup, old(waiting), old(running), meter);
              if found.None? then at.None? && State() == old(State())
              else at.Some? && (State(), M.Handed(M.Ticket(found.value, 0))) == M.TakeFirst(old(State()), at.value)
    {
      var at := Admissible(meter);
      if at.None? { return None; }
      var c := TakeCase(at.value);
      found := Some(c);
    }

    method TakeCase(i: nat) returns (c: Case)
      requires Valid() && !lanes && next <= i < cases.Length
      modifies this`next, this`waiting, this`inFlight, this`running, cases
      ensures Valid()
      ensures (State(), M.Handed(M.Ticket(c, 0))) == M.TakeFirst(old(State()), i - old(next))
    {
      ghost var was := State();
      c := cases[i];
      assert c == was.waiting[i - next];
      Take(i);
      Start(c);
    }

    method ClaimWindow(slot: Slot, lane: M.Lane, meter: M.Meter) returns (answer: M.Answer)
      requires Valid() && !lanes
      modifies this`next, this`waiting, this`inFlight, this`running, this`retryQueue, this`queued, this`departed, cases
      ensures Valid()
      ensures (State(), answer) == M.ClaimWindow(old(State()), slot, lane, meter)
    {
      var found := TakeWindow(meter);
      if found.Some? {
        answer := M.Handed(M.Ticket(found.value, 0));
      } else if next < cases.Length {
        answer := M.Again;
      } else {
        answer := ClaimQuiet(slot, lane);
      }
    }

    /** What a claimant of a lane is given of the first pass, if anything. */
    method TakeLane(slot: Slot, lane: M.Lane) returns (found: Option<Case>)
      requires Valid() && lanes
      modifies this`cursor, this`owner, this`held, this`waiting, this`inFlight, this`running, taken
      ensures Valid()
      ensures var at := FirstIndex(old(waiting), M.InLane(laneOf, lane));
              if found.None? then at.None? && State() == old(State())
              else at.Some? && (State(), M.Handed(M.Ticket(found.value, 0))) == M.TakeDir(old(State()), slot, at.value)
    {
      found := Scan(slot, lane);
      if found.Some? { Start(found.value); }
    }

    method ClaimLane(slot: Slot, lane: M.Lane) returns (answer: M.Answer)
      requires Valid() && lanes
      modifies this`cursor, this`owner, this`held, this`waiting, this`inFlight, this`running,
               this`retryQueue, this`queued, this`departed, taken
      ensures Valid()
      ensures (State(), answer) == M.ClaimLane(old(State()), slot, lane)
    {
      var found := TakeLane(slot, lane);
      if found.Some? {
        answer := M.Handed(M.Ticket(found.value, 0));
      } else {
        answer := ClaimQuiet(slot, lane);
      }
    }

    /** One attempt at a claim, under the lock. */
    method ClaimOnce(slot: Slot, lane: M.Lane, meter: M.Meter) returns (answer: M.Answer)
      requires Valid()
      modifies this, cases, taken
      ensures Valid()
      ensures (State(), answer) == M.ClaimOnce(old(State()), slot, lane, meter)
    {
      if stopped {
        answer := M.NoMore;
      } else if slot in held && held[slot] != [] {
        answer := ClaimHeld(slot);
      } else if lanes {
        answer := ClaimLane(slot, lane);
      } else {
        answer := ClaimWindow(slot, lane, meter);
      }
    }

    /** A retry when nothing is running; otherwise the slot departs. */
    method ClaimQuiet(slot: Slot, lane: M.Lane) returns (answer: M.Answer)
      modifies this`retryQueue, this`queued, this`inFlight, this`departed
      ensures (State(), answer) == M.TakeQuiet(old(State()), slot, lane)
    {
      if inFlight == 0 {
        var at := FindRetry(lane);
        if at.Some? {
          answer := ClaimRetry(at.value);
          return;
        }
      }
      departed := departed + {slot};
      answer := M.NoMore;
    }

    /** Records the outcome of a ticket; true when the case will be tried again. */
    method Complete(t: M.Ticket, success: bool, hasCore: bool) returns (retrying: bool)
      modifies this`inFlight, this`running, this`retryCount, this`queued, this`held, this`retryQueue
      ensures State() == M.Complete(old(State()), t, success, hasCore)
      ensures retrying == M.WillRetry(maxRetry, t, success, hasCore)
    {
      ghost var was := State();
      if inFlight > 0 { inFlight := inFlight - 1; }
      StopRunning(t.kase);
      assert State() == was.(inFlight := inFlight, running := M.StopRunning(was.running, t.kase));
      retrying := !success && !hasCore && t.retry < maxRetry;
      if retrying {
        Enqueue(t.kase, t.retry + 1);
      } else {
        retryCount := retryCount - {t.kase};
        queued := queued - {t.kase};
      }
    }

    method Stop()
      requires Valid()
      modifies this`stopped
      ensures Valid() && State() == M.Stop(old(State()))
    {
      stopped := true;
    }

    method AllTaken() returns (all: bool)
      requires Valid() && lanes
      ensures all <==> waiting == []
    {
      UnmarkedExtremes(cases[..], taken[..]);
      for i := 0 to taken.Length
        invariant forall k :: 0 <= k < i ==> taken[k]
      {
        if !taken[i] { return false; }
      }
      all := true;
    }

    method Drained() returns (drained: bool)
      requires Valid()
      ensures drained == M.Drained(State())
    {
      if stopped { return true; }
      if |retryQueue| > 0 { return false; }
      if !lanes { return next >= cases.Length; }
      drained := AllTaken();
    }

    method Finished() returns (finished: bool)
      requires Valid()
      ensures finished == M.Finished(State())
    {
      if stopped { return true; }
      if |retryQueue| > 0 || inFlight > 0 { return false; }
      var slots := held.Keys;
      while slots != {}
        invariant slots <= held.Keys
        invariant forall s | s in held.Keys - slots :: held[s] == []
        decreases slots
      {
        var s :| s in slots;
        if held[s] != [] { return false; }
        slots := slots - {s};
      }
      if !lanes { return next >= cases.Length; }
      finished := AllTaken();
    }
  }
}
