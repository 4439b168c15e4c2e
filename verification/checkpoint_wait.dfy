/**
 The wait for one checkpoint, against arbitrary readings of the start and end counters: the loop,
 the turn it takes on each reading, and what its success says of the checkpoints themselves.
 */
module CheckpointWait {

  datatype Counts = Counts(started: int, ended: int, ok: bool)

  /**
   What one turn meets: the first reading, whether the watcher was up, how re-arming it went and the
   reading after it, whether a request or the sleep fails, the time after the reading and at the end.
   */
  datatype Poll = Poll(err: bool, up: bool, counts: Counts, rearmFails: bool, againErr: bool, again: Counts,
                       askFails: bool, sleepFails: bool, clock: int, end: int)

  type Polls = nat -> Poll

  datatype Config = Config(deadline: int, poll: nat, reask: int, running: int, unreadable: nat)

  datatype Seen = Failed | Seen(c: Counts, rearmed: bool)

  /** The counters read with the watcher up, re-armed when it was down. */
  function Next(p: Poll): Seen {
    if p.err then Failed
    else if p.up then Seen(p.counts, false)
    else if p.rearmFails then Seen(Counts(0, 0, false), false)
    else if p.againErr then Failed
    else Seen(p.again, true)
  }

  function Shrink(offset: int, c: Counts): int {
    if c.ok && c.started - c.ended < offset then c.started - c.ended else offset
  }

  predicate IsAhead(c: Counts, offset: int) {
    c.started - c.ended > offset
  }

  predicate CheckpointDone(base: Counts, now: Counts) {
    base.ok && now.ok && now.started > base.started && now.ended - base.ended >= now.started - base.started
  }

  // ---- one turn -----------------------------------------------------------

  datatype Outcome = Done | Unread | Unreadable | NotEnded | Error

  /** The baseline and the reading it is from; whether a gap that did not close was taken as the offset. */
  datatype Base = Base(counts: Counts, at: nat, taken: bool)

  datatype State =
    | Ahead(base: Base, offset: int, until: int)
    | Asked(base: Base, offset: int, misses: nat, asked: int)
    | Over(out: Outcome, base: Base, offset: int)

  function AskAfter(p: Poll, base: Base, offset: int): State {
    if p.askFails || p.sleepFails then Over(Error, base, offset) else Asked(base, offset, 0, p.end)
  }

  function WaitOrAsk(p: Poll, base: Base, offset: int, until: int): State {
    if IsAhead(base.counts, offset) then
      if p.clock < until then
        if p.sleepFails then Over(Error, base, offset) else Ahead(base, offset, until)
      else AskAfter(p, base.(taken := true), base.counts.started - base.counts.ended)
    else AskAfter(p, base, offset)
  }

  function First(cfg: Config, p: Poll, offset: int): State {
    var none := Base(Counts(0, 0, false), 0, false);
    if Next(p).Failed? then Over(Error, none, offset)
    else if !Next(p).c.ok then Over(if p.askFails then Error else Unread, none, offset)
    else WaitOrAsk(p, Base(Next(p).c, 0, false), Shrink(offset, Next(p).c), p.clock + cfg.running)
  }

  function AheadTurn(p: Poll, n: nat, s: State): State
    requires s.Ahead?
  {
    if Next(p).Failed? then Over(Error, s.base, s.offset)
    else WaitOrAsk(p, if Next(p).c.ok then Base(Next(p).c, n, false) else s.base, s.offset, s.until)
  }

  /** What ended after the baseline without having started after it was running at the baseline. */
  predicate Overtaken(base: Counts, c: Counts) {
    c.started == base.started && c.ended > base.ended
  }

  predicate AsksAgain(cfg: Config, p: Poll, base: Base, c: Counts, asked: int) {
    c.started == base.counts.started && p.clock - asked >= cfg.reask && cfg.deadline - p.clock > cfg.poll
  }

  /** The end of a turn that goes on: the bound, then the sleep. */
  function GoOn(cfg: Config, p: Poll, base: Base, offset: int, misses: nat, asked: int): State {
    if p.end > cfg.deadline then Over(NotEnded, base, offset)
    else if p.sleepFails then Over(Error, base, offset)
    else Asked(base, offset, misses, asked)
  }

  function AskedTurn(cfg: Config, p: Poll, n: nat, s: State): State
    requires s.Asked?
  {
    if Next(p).Failed? then Over(Error, s.base, s.offset)
    else
      var c, rearmed := Next(p).c, Next(p).rearmed;
      var offset := if rearmed then s.offset else Shrink(s.offset, c);
      var base := if c.ok && !rearmed && Overtaken(s.base.counts, c) then s.base.(counts := c, at := n) else s.base;
      if rearmed && c.ok then
        if p.askFails then Over(Error, s.base.(counts := c, at := n), offset)
        else GoOn(cfg, p, s.base.(counts := c, at := n), offset, s.misses, p.end)
      else if !c.ok then
        if s.misses + 1 >= cfg.unreadable then Over(Unreadable, base, offset)
        else GoOn(cfg, p, base, offset, s.misses + 1, s.asked)
      else if CheckpointDone(base.counts, c) then Over(Done, base, offset)
      else if AsksAgain(cfg, p, base, c, s.asked) then
        if p.askFails then Over(Error, base, offset) else GoOn(cfg, p, base, offset, 0, p.end)
      else GoOn(cfg, p, base, offset, 0, s.asked)
  }

  function Turn(cfg: Config, p: Poll, n: nat, s: State): State
    requires !s.Over?
  {
    if s.Ahead? then AheadTurn(p, n, s) else AskedTurn(cfg, p, n, s)
  }

  /** The states of a run after each reading: only the last may be over. */
  ghost predicate IsRun(cfg: Config, env: Polls, offset: int, run: seq<State>) {
    && run != [] && run[0] == First(cfg, env(0), offset)
    && forall n: nat :: n + 1 < |run| ==> Linked(cfg, env, run, n)
  }

  ghost predicate Linked(cfg: Config, env: Polls, run: seq<State>, n: nat)
    requires n + 1 < |run|
  {
    !run[n].Over? && IsTurn(cfg, env(n + 1), n + 1, run[n], run[n + 1])
  }

  ghost predicate IsTurn(cfg: Config, p: Poll, n: nat, s: State, next: State)
    requires !s.Over?
  {
    next == Turn(cfg, p, n, s)
  }

  lemma Extended(cfg: Config, env: Polls, offset: int, run: seq<State>, n: nat, next: State)
    requires IsRun(cfg, env, offset, run) && |run| == n + 1
    requires !run[n].Over? && IsTurn(cfg, env(n + 1), n + 1, run[n], next)
    ensures IsRun(cfg, env, offset, run + [next])
  {
    var more := run + [next];
    forall k: nat | k + 1 < |more|
      ensures Linked(cfg, env, more, k)
    {
      if k < n {
        assert Linked(cfg, env, run, k);
      }
    }
  }

  lemma AheadFailed(cfg: Config, p: Poll, n: nat, base: Base, offset: int, until: int)
    requires Next(p).Failed?
    ensures IsTurn(cfg, p, n, Ahead(base, offset, until), Over(Error, base, offset))
  {}

  lemma AheadRead(cfg: Config, p: Poll, n: nat, base: Base, offset: int, until: int)
    requires Next(p).Seen?
    ensures IsTurn(cfg, p, n, Ahead(base, offset, until),
                   WaitOrAsk(p, if Next(p).c.ok then Base(Next(p).c, n, false) else base, offset, until))
  {}

  ghost predicate Advancing(cfg: Config, env: Polls) {
    cfg.poll > 0 && forall n: nat :: Advances(cfg, env, n)
  }

  ghost predicate Advances(cfg: Config, env: Polls, n: nat) {
    env(n).clock <= env(n).end && env(n).end + cfg.poll <= env(n + 1).clock
  }

  // ---- the loop -----------------------------------------------------------

  /** The reading before the last but one was in time: no later than one of the two bounds. */
  ghost predicate InTime(cfg: Config, env: Polls, n: nat) {
    n > 1 ==> env(n - 2).clock <= cfg.deadline || env(n - 2).clock < env(0).clock + cfg.running
  }

  ghost predicate Patient(cfg: Config, env: Polls, n: nat) {
    n > 0 ==> env(n - 1).clock < env(0).clock + cfg.running
  }

  /** The run ends so, and in time. */
  ghost predicate EndsAs(cfg: Config, env: Polls, stored: int, run: seq<State>, out: Outcome, offset: int) {
    && IsRun(cfg, env, stored, run) && InTime(cfg, env, |run| - 1)
    && run[|run| - 1].Over? && out == run[|run| - 1].out && offset == run[|run| - 1].offset
  }

  /** Asks for a checkpoint once none is running, and waits for it to end, or says why not. */
  method Wait(cfg: Config, env: Polls, stored: int) returns (out: Outcome, offset: int)
    requires Advancing(cfg, env)
    ensures exists run :: EndsAs(cfg, env, stored, run, out, offset)
  {
    ghost var run;
    out, offset, run := WaitBoth(cfg, env, stored);
    assert EndsAs(cfg, env, stored, run, out, offset);
  }

  /** The readings make one run, so one outcome and one offset. */
  lemma {:induction false} OneRun(cfg: Config, env: Polls, stored: int, run: seq<State>, run': seq<State>)
    requires IsRun(cfg, env, stored, run) && IsRun(cfg, env, stored, run')
    requires run[|run| - 1].Over? && run'[|run'| - 1].Over?
    ensures run == run'
  {
    var n := if |run| <= |run'| then |run| else |run'|;
    SameStates(cfg, env, stored, run, run', n);
    assert |run| < |run'| ==> Linked(cfg, env, run', n - 1);
    assert |run'| < |run| ==> Linked(cfg, env, run, n - 1);
  }

  lemma {:induction false} SameStates(cfg: Config, env: Polls, stored: int, run: seq<State>, run': seq<State>, n: nat)
    requires IsRun(cfg, env, stored, run) && IsRun(cfg, env, stored, run') && n <= |run| && n <= |run'|
    ensures run[..n] == run'[..n]
  {
    if n > 1 {
      SameStates(cfg, env, stored, run, run', n - 1);
      assert Linked(cfg, env, run, n - 2) && Linked(cfg, env, run', n - 2);
      assert run[n - 2] == run[..n - 1][n - 2] == run'[..n - 1][n - 2] == run'[n - 2];
      assert run[n - 1] == Turn(cfg, env(n - 1), n - 1, run[n - 2]);
    }
  }

  method WaitBoth(cfg: Config, env: Polls, stored: int) returns (out: Outcome, offset: int, ghost run: seq<State>)
    requires Advancing(cfg, env)
    ensures EndsAs(cfg, env, stored, run, out, offset)
  {
    var seen := Next(env(0));
    run := [First(cfg, env(0), stored)];
    if seen.Failed? {
      return Error, stored, run;
    }
    if !seen.c.ok {
      return if env(0).askFails then Error else Unread, stored, run;
    }
    offset := Shrink(stored, seen.c);
    var base, n := Base(seen.c, 0, false), 0;
    var ok := true;
    if IsAhead(base.counts, offset) {
      ok, base, offset, n, run := WaitRunning(cfg, env, stored, base, offset);
    }
    if !ok || env(n).askFails {
      return Error, offset, run;
    }
    out, offset, run := WaitEnded(cfg, env, stored, base, offset, n, run);
  }

  /** Waits for a checkpoint running at the baseline; one that does not end is taken as an offset. */
  method WaitRunning(cfg: Config, env: Polls, stored: int, first: Base, shrunk: int)
    returns (ok: bool, base: Base, offset: int, n: nat, ghost run: seq<State>)
    requires Advancing(cfg, env) && IsAhead(first.counts, shrunk) && !first.taken
    requires First(cfg, env(0), stored) == WaitOrAsk(env(0), first, shrunk, env(0).clock + cfg.running)
    ensures |run| == n + 1 && IsRun(cfg, env, stored, run) && Patient(cfg, env, n)
    ensures InTime(cfg, env, n)
    ensures if ok then run[n] == AskAfter(env(n), base, offset) else run[n] == Over(Error, base, offset)
  {
    base, offset, n := first, shrunk, 0;
    run := [First(cfg, env(0), stored)];
    var until := env(0).clock + cfg.running;
    while IsAhead(base.counts, offset) && env(n).clock < until
      invariant |run| == n + 1 && IsRun(cfg, env, stored, run) && Patient(cfg, env, n) && InTime(cfg, env, n)
      invariant run[n] == WaitOrAsk(env(n), base, offset, until) && !base.taken
      decreases until - env(n).clock
    {
      if env(n).sleepFails {
        return false, base, offset, n, run;
      }
      assert Advances(cfg, env, n);
      n := n + 1;
      var seen := Next(env(n));
      if seen.Failed? {
        AheadFailed(cfg, env(n), n, base, offset, until);
        Extended(cfg, env, stored, run, n - 1, Over(Error, base, offset));
        return false, base, offset, n, run + [Over(Error, base, offset)];
      }
      AheadRead(cfg, env(n), n, base, offset, until);
      if seen.c.ok {
        base := Base(seen.c, n, false);
      }
      Extended(cfg, env, stored, run, n - 1, WaitOrAsk(env(n), base, offset, until));
      run := run + [WaitOrAsk(env(n), base, offset, until)];
    }
    if IsAhead(base.counts, offset) {
      offset := base.counts.started - base.counts.ended;
      base := base.(taken := true);
    }
    ok := true;
  }

  method WaitEnded(cfg: Config, env: Polls, ghost stored: int, first: Base, shrunk: int, from: nat,
                   ghost before: seq<State>)
    returns (out: Outcome, offset: int, ghost run: seq<State>)
    requires Advancing(cfg, env) && |before| == from + 1 && IsRun(cfg, env, stored, before) && Patient(cfg, env, from)
    requires !env(from).askFails && before[from] == AskAfter(env(from), first, shrunk)
    ensures IsRun(cfg, env, stored, run) && InTime(cfg, env, |run| - 1)
    ensures run[|run| - 1].Over? && out == run[|run| - 1].out && offset == run[|run| - 1].offset
  {
    var base, n, misses, asked := first, from, 0, env(from).end;
    offset, run := shrunk, before;
    var going := true;
    assert from > 1 ==> Advances(cfg, env, from - 2);
    while !env(n).sleepFails
      invariant |run| == n + 1 && IsRun(cfg, env, stored, run) && InTime(cfg, env, n)
      invariant run[n] == if env(n).sleepFails then Over(Error, base, offset) else Asked(base, offset, misses, asked)
      invariant n >= from && (n > from ==> env(n).end <= cfg.deadline)
      decreases n <= from, cfg.deadline - env(n).clock
    {
      assert Advances(cfg, env, n) && Advances(cfg, env, n + 1) && (n > 0 ==> Advances(cfg, env, n - 1));
      n := n + 1;
      going, out, base, offset, misses, asked := Judge(cfg, env(n), n, base, offset, misses, asked);
      ghost var next := if going then GoOn(cfg, env(n), base, offset, misses, asked) else Over(out, base, offset);
      Extended(cfg, env, stored, run, n - 1, next);
      run := run + [next];
      if !going {
        return;
      }
      if env(n).end > cfg.deadline {
        return NotEnded, offset, run;
      }
    }
    out := Error;
  }

  /** What one reading says: the end of the wait, or a request to make again and a baseline to move. */
  method Judge(cfg: Config, p: Poll, n: nat, was: Base, known: int, missed: nat, last: int)
    returns (going: bool, out: Outcome, base: Base, offset: int, misses: nat, asked: int)
    ensures IsTurn(cfg, p, n, Asked(was, known, missed, last),
                   if going then GoOn(cfg, p, base, offset, misses, asked) else Over(out, base, offset))
  {
    going, out, base, offset, misses, asked := false, Error, was, known, missed, last;
    var seen := Next(p);
    if seen.Failed? {
      return;
    }
    var c := seen.c;
    if c.ok && !seen.rearmed {
      offset := Shrink(offset, c);
      if Overtaken(base.counts, c) {
        base := base.(counts := c, at := n);
      }
    }
    if seen.rearmed && c.ok {
      base := base.(counts := c, at := n);
      if p.askFails {
        return;
      }
      asked := p.end;
    } else if !c.ok {
      misses := misses + 1;
      if misses >= cfg.unreadable {
        out := Unreadable;
        return;
      }
    } else if CheckpointDone(base.counts, c) {
      out := Done;
      return;
    } else {
      misses := 0;
      if AsksAgain(cfg, p, base, c, asked) {
        if p.askFails {
          return;
        }
        asked := p.end;
      }
    }
    going := true;
  }

  // ---- when the wait gives up ---------------------------------------------

  predicate Readable(p: Poll) {
    Next(p).Seen? && Next(p).c.ok
  }

  predicate Missed(p: Poll) {
    Next(p).Seen? && !Next(p).c.ok
  }

  /** Read with the watcher up. */
  predicate Clean(p: Poll) {
    Readable(p) && !Next(p).rearmed
  }

  /** How many readings after m, to n, could not be read. */
  function Unreads(env: Polls, m: nat, n: nat): nat {
    if n <= m then 0 else Unreads(env, m, n - 1) + if Missed(env(n)) then 1 else 0
  }

  /** The request that began the wait went out at reading from, and the wait goes on at n. */
  ghost predicate Begun(run: seq<State>, from: nat, n: nat) {
    && from <= n < |run| && (from > 0 ==> run[from - 1].Ahead?)
    && forall k :: from <= k <= n ==> run[k].Asked?
  }

  /** Reading m is the last clean one, to n, or the one at which the wait began. */
  ghost predicate LastClean(env: Polls, from: nat, m: nat, n: nat) {
    from <= m <= n && (m == from || Clean(env(m))) && forall k: nat :: m < k <= n ==> !Clean(env(k))
  }

  lemma TurnAt(cfg: Config, env: Polls, offset: int, run: seq<State>, n: nat)
    requires IsRun(cfg, env, offset, run) && 0 < n < |run|
    ensures !run[n - 1].Over? && run[n] == Turn(cfg, env(n), n, run[n - 1])
  {
    assert Linked(cfg, env, run, n - 1);
  }

  lemma {:induction false} MissesAre(cfg: Config, env: Polls, offset: int, run: seq<State>, from: nat, m: nat, n: nat)
    requires IsRun(cfg, env, offset, run) && Begun(run, from, n) && LastClean(env, from, m, n)
    ensures run[n].misses == Unreads(env, m, n)
  {
    if n > 0 {
      TurnAt(cfg, env, offset, run, n);
    }
    if n > from && m < n {
      assert !Clean(env(n));
      MissesAre(cfg, env, offset, run, from, m, n - 1);
    }
  }

  lemma {:induction false} BegunFrom(cfg: Config, env: Polls, offset: int, run: seq<State>, n: nat) returns (from: nat)
    requires IsRun(cfg, env, offset, run) && n < |run| && run[n].Asked?
    ensures Begun(run, from, n)
  {
    from := n;
    if n > 0 {
      TurnAt(cfg, env, offset, run, n);
      if run[n - 1].Asked? {
        from := BegunFrom(cfg, env, offset, run, n - 1);
      }
    }
  }

  lemma {:induction false} CleanFrom(env: Polls, from: nat, n: nat) returns (m: nat)
    requires from <= n
    ensures LastClean(env, from, m, n)
  {
    m := n;
    if from < n && !Clean(env(n)) {
      m := CleanFrom(env, from, n - 1);
    }
  }

  /** The wait that began at from has not been read since m, the last clean reading, as often as it may not. */
  ghost predicate TooOften(cfg: Config, env: Polls, run: seq<State>, from: nat, m: nat, n: nat) {
    && n > 0 && Begun(run, from, n - 1) && LastClean(env, from, m, n)
    && Missed(env(n)) && Unreads(env, m, n) >= cfg.unreadable
  }

  /**
   The wait ends as unreadable at reading n exactly when that is unreadable and, since the last clean
   reading or since the request that began the wait, as many were as may be. A readable reading behind
   a watcher re-armed does not interrupt the count.
   */
  lemma UnreadableExactly(cfg: Config, env: Polls, offset: int, run: seq<State>, n: nat)
    requires IsRun(cfg, env, offset, run) && |run| == n + 1
    ensures run[n].Over? && run[n].out == Unreadable <==> exists from, m :: TooOften(cfg, env, run, from, m, n)
  {
    if n > 0 {
      TurnAt(cfg, env, offset, run, n);
      if run[n - 1].Asked? && Missed(env(n)) {
        var from := BegunFrom(cfg, env, offset, run, n - 1);
        var m := CleanFrom(env, from, n - 1);
        MissesAre(cfg, env, offset, run, from, m, n - 1);
        assert LastClean(env, from, m, n);
        assert Unreads(env, m, n) == run[n - 1].misses + 1;
        assert TooOften(cfg, env, run, from, m, n) <==> run[n - 1].misses + 1 >= cfg.unreadable;
      }
    }
    if from: nat, m: nat :| TooOften(cfg, env, run, from, m, n) {
      CountsAlike(cfg, env, offset, run, from, m, n);
    }
  }

  lemma CountsAlike(cfg: Config, env: Polls, offset: int, run: seq<State>, from: nat, m: nat, n: nat)
    requires IsRun(cfg, env, offset, run) && |run| == n + 1 && TooOften(cfg, env, run, from, m, n)
    ensures run[n].Over? && run[n].out == Unreadable
  {
    TurnAt(cfg, env, offset, run, n);
    assert !Clean(env(n)) && m < n;
    assert LastClean(env, from, m, n - 1);
    MissesAre(cfg, env, offset, run, from, m, n - 1);
  }

  /**
   Only a first reading that cannot be read ends the wait without a checkpoint to wait for, and the request
   goes out.
   */
  lemma UnreadExactly(cfg: Config, env: Polls, offset: int, run: seq<State>, n: nat)
    requires IsRun(cfg, env, offset, run) && |run| == n + 1
    ensures run[n].Over? && run[n].out == Unread <==> n == 0 && Missed(env(0)) && !env(0).askFails
  {
    if n > 0 {
      TurnAt(cfg, env, offset, run, n);
    }
  }

  /** A wait ends in an error only when a reading, a request or a sleep failed. */
  lemma ErrorMeans(cfg: Config, env: Polls, offset: int, run: seq<State>, n: nat)
    requires IsRun(cfg, env, offset, run) && n < |run|
    ensures run[n].Over? && run[n].out == Error ==> Next(env(n)).Failed? || env(n).askFails || env(n).sleepFails
    ensures Next(env(n)).Failed? ==> run[n].Over? && run[n].out == Error
  {
    if n > 0 {
      TurnAt(cfg, env, offset, run, n);
    }
  }

  /** The wait for the checkpoint asked for goes on only within the bound, and gives up as not ended only past it. */
  lemma BoundHeld(cfg: Config, env: Polls, offset: int, run: seq<State>, n: nat)
    requires IsRun(cfg, env, offset, run) && 0 < n < |run|
    ensures run[n - 1].Asked? && run[n].Asked? ==> env(n).end <= cfg.deadline
    ensures run[n].Over? && run[n].out == NotEnded ==> run[n - 1].Asked? && env(n).end > cfg.deadline
  {
    TurnAt(cfg, env, offset, run, n);
  }

  lemma {:induction false} AskedBefore(cfg: Config, env: Polls, offset: int, run: seq<State>, n: nat)
    requires Advancing(cfg, env) && IsRun(cfg, env, offset, run) && n < |run| && run[n].Asked?
    ensures run[n].asked <= env(n).end
  {
    if n > 0 {
      TurnAt(cfg, env, offset, run, n);
      if run[n - 1].Asked? {
        AskedBefore(cfg, env, offset, run, n - 1);
        assert Advances(cfg, env, n - 1) && Advances(cfg, env, n);
      }
    }
  }

  /**
   A request goes out again behind a watcher re-armed, and on a clean reading that shows none started
   since the baseline when the last request is so long ago and more than a poll is left.
   */
  lemma AskedAgain(cfg: Config, env: Polls, offset: int, run: seq<State>, n: nat)
    requires Advancing(cfg, env) && IsRun(cfg, env, offset, run) && 0 < n < |run|
    requires run[n - 1].Asked? && run[n].Asked?
    ensures run[n].asked in {run[n - 1].asked, env(n).end} && run[n - 1].asked < env(n).end
    ensures run[n].asked == env(n).end <==>
              || (Readable(env(n)) && Next(env(n)).rearmed)
              || (Clean(env(n)) && Next(env(n)).c.started == run[n].base.counts.started &&
                  env(n).clock >= run[n - 1].asked + cfg.reask && env(n).clock + cfg.poll < cfg.deadline)
  {
    TurnAt(cfg, env, offset, run, n);
    AskedBefore(cfg, env, offset, run, n - 1);
    assert Advances(cfg, env, n - 1) && Advances(cfg, env, n);
  }

  // ---- what the counters count --------------------------------------------

  /** How many checkpoints have begun and are over, and how many of each the counters have missed for good. */
  datatype Truth = Truth(begun: nat, over: nat, lostStarts: nat, lostEnds: nat)

  function Gap(t: Truth): int {
    t.lostEnds - t.lostStarts
  }

  predicate Running(t: Truth) {
    t.begun > t.over
  }

  /** One checkpoint runs at a time, and the counters have missed no more than there was. */
  predicate Sane(t: Truth) {
    t.over <= t.begun <= t.over + 1 && t.lostStarts <= t.begun && t.lostEnds <= t.over
  }

  type History = nat -> Truth

  predicate Tells(seen: Seen, t: Truth) {
    seen.Seen? && seen.c.ok ==> seen.c == Read(t)
  }

  /** What counters that can be read say: all that was not missed. */
  function Read(t: Truth): Counts {
    Counts(t.begun - t.lostStarts, t.over - t.lostEnds, true)
  }

  /** With the watcher up no start is missed; an end is when a checkpoint fails. */
  predicate Later(t: Truth, u: Truth, up: bool) {
    && t.begun <= u.begun && t.over <= u.over
    && (up ==> t.lostStarts == u.lostStarts && t.lostEnds <= u.lostEnds)
  }

  ghost predicate Reported(env: Polls, h: History, n: nat) {
    Sane(h(n)) && Tells(Next(env(n)), h(n)) && Later(h(n), h(n + 1), env(n + 1).up)
  }

  /** The readings tell of this history. */
  ghost predicate Reports(env: Polls, h: History) {
    forall n: nat :: Reported(env, h, n)
  }

  /** The watcher was up at every reading after m, to n. */
  ghost predicate Watched(env: Polls, m: int, n: nat) {
    forall k: nat :: m < k <= n ==> env(k).up
  }

  lemma {:induction false} LaterOn(env: Polls, h: History, m: nat, n: nat)
    requires Reports(env, h) && m <= n && Watched(env, m, n)
    ensures Later(h(m), h(n), true)
  {
    if m < n {
      LaterOn(env, h, m, n - 1);
      assert Reported(env, h, n - 1);
    }
  }

  /** The baseline is a reading of the counters that was taken by now. */
  ghost predicate BaseRead(env: Polls, n: nat, base: Base) {
    base.at <= n && base.counts.ok && Next(env(base.at)).Seen? && Next(env(base.at)).c == base.counts
  }

  lemma {:induction false} BaseKept(cfg: Config, env: Polls, offset: int, run: seq<State>, n: nat)
    requires IsRun(cfg, env, offset, run) && n < |run|
    ensures !run[n].Over? || run[n].out == Done ==> BaseRead(env, n, run[n].base)
  {
    if n > 0 {
      BaseKept(cfg, env, offset, run, n - 1);
      assert Linked(cfg, env, run, n - 1);
      assert run[n] == Turn(cfg, env(n), n, run[n - 1]);
    }
  }

  // ---- what success says --------------------------------------------------

  ghost predicate EndsDone(run: seq<State>) {
    run != [] && run[|run| - 1].Over? && run[|run| - 1].out == Done
  }

  /** At the end none runs, and one that began since the baseline is over. */
  ghost predicate Finished(h: History, run: seq<State>)
    requires run != []
  {
    h(|run| - 1).over == h(|run| - 1).begun > h(run[|run| - 1].base.at).begun
  }

  lemma DoneCounts(cfg: Config, env: Polls, offset: int, run: seq<State>)
    requires IsRun(cfg, env, offset, run) && EndsDone(run)
    ensures var n := |run| - 1; Next(env(n)).Seen? && CheckpointDone(run[n].base.counts, Next(env(n)).c)
  {
    var n := |run| - 1;
    if n > 0 {
      assert Linked(cfg, env, run, n - 1);
      assert run[n] == Turn(cfg, env(n), n, run[n - 1]);
    }
  }

  /** Success leaves an offset that is no more than the gap and what runs. */
  lemma OffsetLearned(cfg: Config, env: Polls, h: History, offset: int, run: seq<State>)
    requires IsRun(cfg, env, offset, run) && EndsDone(run) && Reports(env, h)
    ensures var n := |run| - 1; run[n].offset <= Gap(h(n)) + if Running(h(n)) then 1 else 0
  {
    var n := |run| - 1;
    assert Reported(env, h, n);
    if n > 0 {
      assert Linked(cfg, env, run, n - 1);
      assert run[n] == Turn(cfg, env(n), n, run[n - 1]);
    }
  }

  /**
   Success with the watcher up since the baseline: a checkpoint has begun since and as many are over
   as began, so one still runs only if one ran at the baseline.
   */
  lemma DoneSinceBase(cfg: Config, env: Polls, h: History, offset: int, run: seq<State>)
    requires IsRun(cfg, env, offset, run) && EndsDone(run) && Reports(env, h)
    requires Watched(env, run[|run| - 1].base.at, |run| - 1)
    ensures var was, now := h(run[|run| - 1].base.at), h(|run| - 1);
            && now.begun > was.begun && now.over > was.over
            && (Running(now) ==> Running(was))
  {
    var n := |run| - 1;
    var at := run[n].base.at;
    BaseKept(cfg, env, offset, run, n);
    DoneCounts(cfg, env, offset, run);
    LaterOn(env, h, at, n);
    assert Reported(env, h, n) && Reported(env, h, at);
  }

  // ---- what a baseline is worth -------------------------------------------

  /** A reading with the watcher up leaves a baseline alone that the losses by now explain. */
  lemma SoundTurn(cfg: Config, p: Poll, n: nat, s: State, was: Truth, before: Truth, now: Truth)
    requires s.Asked? && s.base.counts == Read(was) && Sane(now) && !IsAhead(s.base.counts, Gap(before))
    requires p.up && Tells(Next(p), now) && Gap(before) <= Gap(now)
    ensures var next := AskedTurn(cfg, p, n, s);
            !next.Ahead? && next.base == s.base && !IsAhead(s.base.counts, Gap(now))
  {}

  lemma {:induction false} SoundOn(cfg: Config, env: Polls, h: History, offset: int, run: seq<State>, m: nat, n: nat)
    requires IsRun(cfg, env, offset, run) && Reports(env, h) && m <= n < |run| && run[m].Asked?
    requires Watched(env, run[m].base.at, n) && !IsAhead(run[m].base.counts, Gap(h(m)))
    ensures !run[n].Ahead? && run[n].base == run[m].base && !IsAhead(run[m].base.counts, Gap(h(n)))
  {
    if m < n {
      SoundOn(cfg, env, h, offset, run, m, n - 1);
      BaseKept(cfg, env, offset, run, m);
      TurnAt(cfg, env, offset, run, n);
      SoundNext(cfg, env, h, n, run[n - 1]);
    }
  }

  lemma SoundNext(cfg: Config, env: Polls, h: History, n: nat, s: State)
    requires Reports(env, h) && n > 0 && s.Asked? && BaseRead(env, n - 1, s.base)
    requires env(n).up && !IsAhead(s.base.counts, Gap(h(n - 1)))
    ensures var next := AskedTurn(cfg, env(n), n, s);
            !next.Ahead? && next.base == s.base && !IsAhead(s.base.counts, Gap(h(n)))
  {
    assert Reported(env, h, s.base.at) && Reported(env, h, n) && Reported(env, h, n - 1);
    SoundTurn(cfg, env(n), n, s, h(s.base.at), h(n - 1), h(n));
  }

  lemma SoundDone(cfg: Config, env: Polls, h: History, offset: int, run: seq<State>)
    requires IsRun(cfg, env, offset, run) && EndsDone(run) && Reports(env, h)
    requires Watched(env, run[|run| - 1].base.at, |run| - 1) && !IsAhead(run[|run| - 1].base.counts, Gap(h(|run| - 1)))
    ensures Finished(h, run)
  {
    var n := |run| - 1;
    var at := run[n].base.at;
    BaseKept(cfg, env, offset, run, n);
    DoneCounts(cfg, env, offset, run);
    LaterOn(env, h, at, n);
    assert Reported(env, h, n) && Reported(env, h, at);
  }

  /** A reading that shows none running leaves a baseline that the losses by then explain. */
  lemma IdleSound(cfg: Config, p: Poll, n: nat, s: State, was: Truth, now: Truth)
    requires s.Asked? && s.base.counts == Read(was) && Sane(was) && Sane(now) && Later(was, now, true)
    requires p.up && Readable(p) && Next(p).c == Read(now) && !Running(now)
    ensures var next := AskedTurn(cfg, p, n, s);
            next.Asked? ==> !IsAhead(next.base.counts, Gap(now))
  {}

  /**
   Once a reading of the wait has shown none running, its success can be believed, whatever ran at the
   baseline before: what started since is measured from there.
   */
  lemma IdleSeen(cfg: Config, env: Polls, h: History, offset: int, run: seq<State>, m: nat)
    requires IsRun(cfg, env, offset, run) && EndsDone(run) && Reports(env, h)
    requires m < |run| && run[m].Asked? && Watched(env, run[m].base.at, |run| - 1)
    requires Readable(env(m)) && !Running(h(m))
    ensures Finished(h, run)
  {
    IdleAt(cfg, env, h, offset, run, m);
    SoundOn(cfg, env, h, offset, run, m, |run| - 1);
    SoundDone(cfg, env, h, offset, run);
  }

  lemma IdleAt(cfg: Config, env: Polls, h: History, offset: int, run: seq<State>, m: nat)
    requires IsRun(cfg, env, offset, run) && Reports(env, h)
    requires m < |run| && run[m].Asked? && Watched(env, run[m].base.at, m) && Readable(env(m)) && !Running(h(m))
    ensures !IsAhead(run[m].base.counts, Gap(h(m)))
  {
    var at := run[m].base.at;
    BaseKept(cfg, env, offset, run, m);
    assert Reported(env, h, m) && Reported(env, h, at);
    if at < m {
      TurnAt(cfg, env, offset, run, m);
      LaterOn(env, h, at, m);
      IdleSound(cfg, env(m), m, run[m - 1], h(at), h(m));
    }
  }

  ghost predicate SameAt(env: Polls, h: History, env': Polls, h': History, k: nat) {
    env'(k) == env(k) && h'(k) == h(k)
  }

  /** The readings are the same to reading n, and go on in any way after it. */
  ghost predicate Continues(cfg: Config, env: Polls, h: History, n: nat, env': Polls, h': History) {
    Advancing(cfg, env') && Reports(env', h') && forall k: nat :: k <= n ==> SameAt(env, h, env', h', k)
  }

  /** However the readings go on from reading n, success with the watcher up since the baseline can be believed. */
  ghost predicate Trusted(cfg: Config, env: Polls, h: History, offset: int, base: Base, n: nat) {
    forall env': Polls, h': History, run: seq<State> ::
      Continues(cfg, env, h, n, env', h') ==>
      IsRun(cfg, env', offset, run) && EndsDone(run) && Watched(env', base.at, |run| - 1) ==>
      Finished(h', run)
  }

  lemma {:induction false} SameSoFar(cfg: Config, env: Polls, h: History, env': Polls, h': History, offset: int,
                                     run: seq<State>, run': seq<State>, n: nat)
    requires IsRun(cfg, env, offset, run) && IsRun(cfg, env', offset, run') && EndsDone(run')
    requires n < |run| && !run[n].Over? && forall k: nat :: k <= n ==> SameAt(env, h, env', h', k)
    ensures n + 1 < |run'| && run'[n] == run[n]
  {
    assert SameAt(env, h, env', h', n);
    if n > 0 {
      assert Linked(cfg, env, run, n - 1);
      SameSoFar(cfg, env, h, env', h', offset, run, run', n - 1);
      assert Linked(cfg, env', run', n - 1);
      assert run[n] == Turn(cfg, env(n), n, run[n - 1]);
      assert run'[n] == Turn(cfg, env'(n), n, run'[n - 1]);
    }
  }

  /**
   Of any wait that has asked, with the watcher up since its baseline: what success will say is true in
   every continuation exactly when the baseline is not ahead of what the counters have lost by now.
   */
  lemma TrustedExactly(cfg: Config, env: Polls, h: History, offset: int, run: seq<State>, n: nat)
    requires Advancing(cfg, env) && Reports(env, h) && IsRun(cfg, env, offset, run)
    requires |run| == n + 1 && run[n].Asked? && Watched(env, run[n].base.at, n)
    ensures Trusted(cfg, env, h, offset, run[n].base, n) <==> !IsAhead(run[n].base.counts, Gap(h(n)))
  {
    if IsAhead(run[n].base.counts, Gap(h(n))) {
      Mistrusted(cfg, env, h, offset, run, n);
    } else {
      forall env': Polls, h': History, run': seq<State> |
        Continues(cfg, env, h, n, env', h') && IsRun(cfg, env', offset, run') && EndsDone(run') &&
        Watched(env', run[n].base.at, |run'| - 1)
        ensures Finished(h', run')
      {
        assert SameAt(env, h, env', h', n);
        SameSoFar(cfg, env, h, env', h', offset, run, run', n);
        SoundOn(cfg, env', h', offset, run', n, |run'| - 1);
        SoundDone(cfg, env', h', offset, run');
      }
    }
  }

  /** After reading n what ran is over and the next one runs. */
  function NextRuns(h: History, n: nat): History {
    (k: nat) => if k <= n then h(k) else Truth(h(n).begun + 1, h(n).begun, h(n).lostStarts, h(n).lostEnds)
  }

  function GoodFrom(cfg: Config, env: Polls, h: History, n: nat): Polls {
    (k: nat) => if k <= n then env(k) else Good(Read(h(k)), env(n).end + (k - n) * cfg.poll)
  }

  function Good(counts: Counts, time: int): Poll {
    Poll(false, true, counts, false, false, counts, false, false, time, time)
  }

  lemma GoodReports(cfg: Config, env: Polls, h: History, n: nat)
    requires Reports(env, h)
    ensures Reports(GoodFrom(cfg, env, NextRuns(h, n), n), NextRuns(h, n))
  {
    var h' := NextRuns(h, n);
    forall k: nat
      ensures Reported(GoodFrom(cfg, env, h', n), h', k)
    {
      assert Reported(env, h, k) && Reported(env, h, n);
    }
  }

  lemma GoodAdvances(cfg: Config, env: Polls, h: History, n: nat)
    requires Advancing(cfg, env)
    ensures Advancing(cfg, GoodFrom(cfg, env, h, n))
  {
    forall k: nat
      ensures Advances(cfg, GoodFrom(cfg, env, h, n), k)
    {
      assert Advances(cfg, env, k) && Advances(cfg, env, n);
      Steps(k - n, cfg.poll);
    }
  }

  lemma Steps(k: int, poll: nat)
    ensures (k + 1) * poll == k * poll + poll
    ensures k == 0 ==> k * poll == 0
  {}

  lemma GoodContinues(cfg: Config, env: Polls, h: History, n: nat)
    requires Advancing(cfg, env) && Reports(env, h)
    ensures Continues(cfg, env, h, n, GoodFrom(cfg, env, NextRuns(h, n), n), NextRuns(h, n))
  {
    GoodReports(cfg, env, h, n);
    GoodAdvances(cfg, env, NextRuns(h, n), n);
    forall k: nat | k <= n
      ensures SameAt(env, h, GoodFrom(cfg, env, NextRuns(h, n), n), NextRuns(h, n), k)
    {}
  }

  lemma Mistrusted(cfg: Config, env: Polls, h: History, offset: int, run: seq<State>, n: nat)
    requires Advancing(cfg, env) && Reports(env, h) && IsRun(cfg, env, offset, run)
    requires |run| == n + 1 && run[n].Asked? && Watched(env, run[n].base.at, n)
    requires IsAhead(run[n].base.counts, Gap(h(n)))
    ensures !Trusted(cfg, env, h, offset, run[n].base, n)
  {
    var h' := NextRuns(h, n);
    var env' := GoodFrom(cfg, env, h', n);
    GoodContinues(cfg, env, h, n);
    MistrustedRun(cfg, env, h, env', h', offset, run, n);
    var run' :| IsRun(cfg, env', offset, run') && EndsDone(run') && |run'| == n + 2;
    assert Watched(env', run[n].base.at, n + 1) by {
      forall k: nat | run[n].base.at < k <= n + 1
        ensures env'(k).up
      {
        assert k <= n ==> env(k).up;
      }
    }
    assert Running(h'(n + 1));
  }

  lemma MistrustedRun(cfg: Config, env: Polls, h: History, env': Polls, h': History, offset: int, run: seq<State>,
                      n: nat)
    requires Reports(env, h) && IsRun(cfg, env, offset, run)
    requires |run| == n + 1 && run[n].Asked? && Watched(env, run[n].base.at, n)
    requires IsAhead(run[n].base.counts, Gap(h(n)))
    requires Continues(cfg, env, h, n, env', h') && env'(n + 1) == Good(Read(h'(n + 1)), env'(n + 1).clock)
    requires h'(n + 1) == Truth(h(n).begun + 1, h(n).begun, h(n).lostStarts, h(n).lostEnds)
    ensures exists run' :: IsRun(cfg, env', offset, run') && EndsDone(run') && |run'| == n + 2
  {
    var s := run[n];
    BaseKept(cfg, env, offset, run, n);
    LaterOn(env, h, s.base.at, n);
    assert Reported(env, h, n) && Reported(env, h, s.base.at);
    var p := env'(n + 1);
    assert CheckpointDone(s.base.counts, Next(p).c);
    var next := AskedTurn(cfg, p, n + 1, s);
    RunAgain(cfg, env, h, env', h', offset, run);
    Extended(cfg, env', offset, run, n, next);
    assert EndsDone(run + [next]);
  }

  lemma RunAgain(cfg: Config, env: Polls, h: History, env': Polls, h': History, offset: int, run: seq<State>)
    requires IsRun(cfg, env, offset, run) && forall k: nat :: k < |run| ==> SameAt(env, h, env', h', k)
    ensures IsRun(cfg, env', offset, run)
  {
    assert SameAt(env, h, env', h', 0);
    forall n: nat | n + 1 < |run|
      ensures Linked(cfg, env', run, n)
    {
      assert Linked(cfg, env, run, n) && SameAt(env, h, env', h', n + 1);
    }
  }

  // ---- when a gap is taken ------------------------------------------------

  /** Reading m is made if the wait for the checkpoint running at the baseline has not ended before. */
  ghost predicate Reached(cfg: Config, env: Polls, m: nat) {
    m == 0 || env(m - 1).clock < env(0).clock + cfg.running
  }

  /** If reading m is made and can be read it is ahead of the offset known. */
  ghost predicate Stays(cfg: Config, env: Polls, known: int, m: nat) {
    Reached(cfg, env, m) && Readable(env(m)) ==> IsAhead(Next(env(m)).c, known)
  }

  ghost predicate AllStay(cfg: Config, env: Polls, known: int, n: nat) {
    forall m: nat :: m <= n ==> Stays(cfg, env, known, m)
  }

  lemma {:induction false} ClocksOn(cfg: Config, env: Polls, m: nat, n: nat)
    requires Advancing(cfg, env) && m <= n
    ensures env(m).clock <= env(n).clock
  {
    if m < n {
      ClocksOn(cfg, env, m, n - 1);
      assert Advances(cfg, env, n - 1);
    }
  }

  /**
   What a state says of the readings so far: still waiting, all ahead; done waiting, a gap taken just when
   all were.
   */
  ghost predicate TellsTaken(cfg: Config, env: Polls, known: int, s: State, n: nat) {
    && (s.Ahead? ==>
          s.offset == known && s.until == env(0).clock + cfg.running && env(n).clock < s.until &&
          IsAhead(s.base.counts, known) && !s.base.taken && AllStay(cfg, env, known, n))
    && (s.Asked? ==> (s.base.taken ==> env(n).clock >= env(0).clock + cfg.running))
    && ((s.Asked? || (s.Over? && s.out == Done)) ==> (s.base.taken <==> AllStay(cfg, env, known, n)))
  }

  lemma TakenStep(cfg: Config, env: Polls, known: int, n: nat)
    ensures AllStay(cfg, env, known, n + 1) <==> AllStay(cfg, env, known, n) && Stays(cfg, env, known, n + 1)
  {}

  lemma TakenWait(cfg: Config, env: Polls, known: int, base: Base, n: nat)
    requires Reached(cfg, env, n) && !base.taken && (n > 0 ==> AllStay(cfg, env, known, n - 1))
    requires if Readable(env(n)) then base.counts == Next(env(n)).c else IsAhead(base.counts, known)
    ensures TellsTaken(cfg, env, known, WaitOrAsk(env(n), base, known, env(0).clock + cfg.running), n)
  {
    if n > 0 {
      TakenStep(cfg, env, known, n - 1);
    }
    assert AllStay(cfg, env, known, n) <==> Stays(cfg, env, known, n);
  }

  lemma AskedKeepsTaken(cfg: Config, p: Poll, n: nat, s: State)
    requires s.Asked?
    ensures var next := AskedTurn(cfg, p, n, s); !next.Ahead? && next.base.taken == s.base.taken
  {}

  /**
   A gap is taken as the offset exactly when every reading made while the wait for a running checkpoint
   lasts, and that can be read, is ahead of the offset known at the first.
   */
  lemma {:induction false} TakenExactly(cfg: Config, env: Polls, offset: int, run: seq<State>, n: nat)
    requires Advancing(cfg, env) && IsRun(cfg, env, offset, run) && n < |run| && Readable(env(0))
    ensures TellsTaken(cfg, env, Shrink(offset, Next(env(0)).c), run[n], n)
  {
    var known := Shrink(offset, Next(env(0)).c);
    if n == 0 {
      TakenWait(cfg, env, known, Base(Next(env(0)).c, 0, false), 0);
    } else {
      TakenExactly(cfg, env, offset, run, n - 1);
      assert Linked(cfg, env, run, n - 1);
      assert run[n] == Turn(cfg, env(n), n, run[n - 1]);
      var s := run[n - 1];
      if s.Asked? {
        AskedKeepsTaken(cfg, env(n), n, s);
        TakenStep(cfg, env, known, n - 1);
        ClocksOn(cfg, env, n - 1, n);
        assert s.base.taken ==> Stays(cfg, env, known, n);
      } else if Next(env(n)).Seen? {
        TakenWait(cfg, env, known, if Next(env(n)).c.ok then Base(Next(env(n)).c, n, false) else s.base, n);
      }
    }
  }

  lemma FirstReadable(cfg: Config, env: Polls, offset: int, run: seq<State>)
    requires IsRun(cfg, env, offset, run) && (|run| > 1 || EndsDone(run))
    ensures Readable(env(0)) && |run| > 1
  {
    if |run| > 1 {
      assert Linked(cfg, env, run, 0);
    }
  }

  /** With the watcher up and the stored offset under the gap, a gap is always taken. */
  lemma BelowTaken(cfg: Config, env: Polls, h: History, offset: int, run: seq<State>)
    requires IsRun(cfg, env, offset, run) && EndsDone(run) && offset < Gap(h(0))
    requires Advancing(cfg, env) && Reports(env, h) && Watched(env, 0, |run| - 1)
    ensures run[|run| - 1].base.taken
  {
    var n := |run| - 1;
    FirstReadable(cfg, env, offset, run);
    TakenExactly(cfg, env, offset, run, n);
    assert Reported(env, h, 0);
    forall m: nat | m <= n
      ensures Stays(cfg, env, offset, m)
    {
      assert Reported(env, h, m);
      LaterOn(env, h, 0, m);
    }
  }

  // ---- when success can be believed ---------------------------------------

  /**
   What holds of a state whose baseline tells of was, when the counters began with a gap: no idle
   baseline without cause, and an offset no less than the stored one or the gap.
   */
  predicate Explained(s: State, was: Truth, gap: int, offset: int) {
    && (!s.base.taken ==> s.offset <= offset)
    && (s.offset >= offset || s.offset >= gap)
    && (s.Ahead? ==> !s.base.taken)
    && ((s.Asked? || (s.Over? && s.out == Done)) && !s.base.taken && Running(was) ==> offset > gap)
  }

  /** How far the started are ahead of the ended in a reading. */
  function Lead(t: Truth): int {
    Gap(t) + if Running(t) then 1 else 0
  }

  predicate Leads(c: Counts, t: Truth) {
    c.started - c.ended == Lead(t)
  }

  lemma ReadLeads(t: Truth)
    requires Sane(t)
    ensures Leads(Read(t), t)
  {}

  /** What ended without another having begun leaves none running. */
  lemma OvertakenIdle(was: Truth, now: Truth)
    requires Sane(was) && Sane(now) && Later(was, now, true)
    ensures Overtaken(Read(was), Read(now)) ==> !Running(now)
  {}

  lemma WaitExplained(p: Poll, base: Base, known: int, until: int, was: Truth, gap: int, offset: int)
    requires Leads(base.counts, was) && !base.taken && gap <= Gap(was)
    requires known <= offset && (known >= offset || known >= gap)
    ensures Explained(WaitOrAsk(p, base, known, until), was, gap, offset)
  {}

  lemma AskedExplained(cfg: Config, p: Poll, n: nat, s: State, was: Truth, now: Truth, gap: int, offset: int)
    requires s.Asked? && Explained(s, was, gap, offset) && s.base.at < n && p.up && gap <= Gap(now)
    requires Readable(p) ==> Leads(Next(p).c, now) && (Overtaken(s.base.counts, Next(p).c) ==> !Running(now))
    ensures var next := AskedTurn(cfg, p, n, s);
            Explained(next, if next.base.at == n then now else was, gap, offset)
  {}

  lemma AheadExplained(p: Poll, n: nat, s: State, was: Truth, now: Truth, gap: int, offset: int)
    requires s.Ahead? && Explained(s, was, gap, offset) && s.base.at < n && gap <= Gap(was) && gap <= Gap(now)
    requires Leads(s.base.counts, was) && (Readable(p) ==> Leads(Next(p).c, now))
    ensures var next := AheadTurn(p, n, s);
            Explained(next, if next.base.at == n then now else was, gap, offset)
  {
    if Next(p).Seen? {
      var base := if Next(p).c.ok then Base(Next(p).c, n, false) else s.base;
      WaitExplained(p, base, s.offset, s.until, if Next(p).c.ok then now else was, gap, offset);
    }
  }

  lemma BaseIsOld(cfg: Config, p: Poll, n: nat, s: State)
    requires !s.Over?
    ensures var next := Turn(cfg, p, n, s); next.base.at == n || next.base.at == s.base.at
  {}

  /**
   With the watcher up throughout, one ran at the baseline only if the stored offset was past the gap or a
   gap was taken.
   */
  lemma {:induction false} BaseIdle(cfg: Config, env: Polls, h: History, offset: int, run: seq<State>, n: nat)
    requires IsRun(cfg, env, offset, run) && n < |run| && Reports(env, h) && Watched(env, 0, n)
    requires !run[n].Over? || run[n].out == Done
    ensures Explained(run[n], h(run[n].base.at), Gap(h(0)), offset)
  {
    if n == 0 {
      assert Reported(env, h, 0);
      ReadLeads(h(0));
      var c := Next(env(0)).c;
      WaitExplained(env(0), Base(c, 0, false), Shrink(offset, c), env(0).clock + cfg.running, h(0), Gap(h(0)), offset);
    } else {
      TurnAt(cfg, env, offset, run, n);
      var s := run[n - 1];
      BaseIdle(cfg, env, h, offset, run, n - 1);
      BaseKept(cfg, env, offset, run, n - 1);
      LaterOn(env, h, 0, s.base.at);
      LaterOn(env, h, s.base.at, n);
      assert Reported(env, h, s.base.at) && Reported(env, h, n);
      ReadLeads(h(s.base.at));
      ReadLeads(h(n));
      OvertakenIdle(h(s.base.at), h(n));
      BaseIsOld(cfg, env(n), n, s);
      if s.Asked? {
        AskedExplained(cfg, env(n), n, s, h(s.base.at), h(n), Gap(h(0)), offset);
      } else {
        AheadExplained(env(n), n, s, h(s.base.at), h(n), Gap(h(0)), offset);
      }
    }
  }

  /**
   A reading made while the wait for a running checkpoint lasts shows none running and nothing lost since
   the first.
   */
  ghost predicate QuietAt(cfg: Config, env: Polls, h: History, m: nat) {
    Reached(cfg, env, m) && Readable(env(m)) && !Running(h(m)) && Gap(h(m)) == Gap(h(0))
  }

  lemma QuietStops(cfg: Config, env: Polls, h: History, m: nat)
    requires QuietAt(cfg, env, h, m) && Reports(env, h)
    ensures !Stays(cfg, env, Gap(h(0)), m)
  {
    assert Reported(env, h, m);
  }

  /** The wait has nothing to wait for at first, or some reading made in it shows none running and nothing more lost. */
  ghost predicate Settles(cfg: Config, env: Polls, h: History, offset: int, n: nat) {
    (Readable(env(0)) && !IsAhead(Next(env(0)).c, offset)) || exists m: nat :: m <= n && QuietAt(cfg, env, h, m)
  }

  /**
   With the gap as the stored offset, the watcher up, and some reading made in the wait that shows none
   running and nothing more lost, success says that none runs and that one begun since the baseline is
   over; the offset stays.
   */
  lemma DoneAtGap(cfg: Config, env: Polls, h: History, offset: int, run: seq<State>)
    requires IsRun(cfg, env, offset, run) && EndsDone(run)
    requires Advancing(cfg, env) && Reports(env, h) && Watched(env, 0, |run| - 1)
    requires offset == Gap(h(0)) && Settles(cfg, env, h, offset, |run| - 1)
    ensures Finished(h, run) && run[|run| - 1].offset == offset
  {
    var n := |run| - 1;
    FirstReadable(cfg, env, offset, run);
    assert Reported(env, h, 0);
    assert Reached(cfg, env, 0);
    var m: nat :| m <= n && QuietAt(cfg, env, h, m);
    QuietStops(cfg, env, h, m);
    TakenExactly(cfg, env, offset, run, n);
    BaseIdle(cfg, env, h, offset, run, n);
    BaseKept(cfg, env, offset, run, n);
    DoneSinceBase(cfg, env, h, offset, run);
    assert Reported(env, h, n);
  }

  ghost predicate SafeRun(cfg: Config, offset: int, gap: int, env: Polls, h: History, run: seq<State>) {
    IsRun(cfg, env, offset, run) && EndsDone(run) ==>
    Advancing(cfg, env) && Reports(env, h) && Gap(h(0)) == gap ==>
    Watched(env, 0, |run| - 1) && Settles(cfg, env, h, offset, |run| - 1) ==>
    Finished(h, run)
  }

  /** Whatever the history, if the wait has nothing to wait for or reads that none runs, success can be believed. */
  ghost predicate Safe(cfg: Config, offset: int, gap: int) {
    forall env: Polls, h: History, run: seq<State> :: SafeRun(cfg, offset, gap, env, h, run)
  }

  /**
   A stored offset is safe exactly when it is the gap, or is under it and the wait does not look twice
   before it takes the gap.
   */
  lemma OffsetExactly(cfg: Config, offset: int, gap: int)
    requires cfg.poll > 0
    ensures Safe(cfg, offset, gap) <==> offset == gap || (offset < gap && cfg.running <= 0)
  {
    if offset > gap {
      StaleOffset(cfg, offset, gap);
    } else if offset < gap && cfg.running > 0 {
      LateOffset(cfg, offset, gap);
    } else {
      forall env: Polls, h: History, run: seq<State>
        ensures SafeRun(cfg, offset, gap, env, h, run)
      {
        if Advancing(cfg, env) && Reports(env, h) && Gap(h(0)) == gap &&
           IsRun(cfg, env, offset, run) && EndsDone(run) &&
           Watched(env, 0, |run| - 1) && Settles(cfg, env, h, offset, |run| - 1) {
          if offset == gap {
            DoneAtGap(cfg, env, h, offset, run);
          } else {
            DoneAtOnce(cfg, env, h, offset, run);
          }
        }
      }
    }
  }

  lemma DoneAtOnce(cfg: Config, env: Polls, h: History, offset: int, run: seq<State>)
    requires IsRun(cfg, env, offset, run) && EndsDone(run)
    requires Advancing(cfg, env) && Reports(env, h) && Watched(env, 0, |run| - 1)
    requires offset < Gap(h(0)) && cfg.running <= 0 && Settles(cfg, env, h, offset, |run| - 1)
    ensures Finished(h, run)
  {
    var n := |run| - 1;
    FirstReadable(cfg, env, offset, run);
    assert Reported(env, h, 0);
    var m: nat :| m <= n && QuietAt(cfg, env, h, m);
    if m > 0 {
      ClocksOn(cfg, env, 0, m - 1);
    }
    assert Linked(cfg, env, run, 0);
    SoundOn(cfg, env, h, offset, run, 0, n);
    SoundDone(cfg, env, h, offset, run);
  }

  // ---- histories that mislead ---------------------------------------------

  /** The counters lost this much long ago; since then so many have begun and are over. */
  function After(gap: int, begun: nat, over: nat): Truth {
    var some := if gap < 0 then -gap else gap;
    Truth(some + begun, some + over, if gap < 0 then some else 0, if gap < 0 then 0 else some)
  }

  /** Readings a step apart that all succeed. */
  function Readings(h: History, step: nat): Polls {
    (n: nat) => Good(Read(h(n)), n * step)
  }

  ghost predicate Plain(h: History) {
    forall n: nat :: PlainAt(h, n)
  }

  ghost predicate PlainAt(h: History, n: nat) {
    Sane(h(n)) && Later(h(n), h(n + 1), true)
  }

  lemma ReadingsReport(cfg: Config, h: History, step: nat)
    requires 0 < cfg.poll <= step && Plain(h)
    ensures Advancing(cfg, Readings(h, step)) && Reports(Readings(h, step), h)
    ensures forall n: nat :: Watched(Readings(h, step), 0, n)
  {
    var env := Readings(h, step);
    forall n: nat
      ensures Advances(cfg, env, n) && Reported(env, h, n)
    {
      assert PlainAt(h, n);
      assert (n + 1) * step == n * step + step;
    }
    forall n: nat
      ensures Watched(env, 0, n)
    {
      forall k: nat | k <= n
        ensures env(k).up
      {
        assert env(k) == Good(Read(h(k)), k * step);
      }
    }
  }

  lemma DoneTurn(cfg: Config, p: Poll, n: nat, base: Base, offset: int, misses: nat, asked: int)
    requires Next(p).Seen? && !Next(p).rearmed && CheckpointDone(base.counts, Next(p).c)
    requires offset <= Next(p).c.started - Next(p).c.ended
    ensures AskedTurn(cfg, p, n, Asked(base, offset, misses, asked)) == Over(Done, base, offset)
  {}

  lemma RunOfTwo(cfg: Config, env: Polls, offset: int, s0: State, s1: State)
    requires s0 == First(cfg, env(0), offset) && !s0.Over? && s1 == Turn(cfg, env(1), 1, s0)
    ensures IsRun(cfg, env, offset, [s0, s1])
  {}

  /** One checkpoint runs at the baseline; by the next reading it has ended and another has begun. */
  function StaleHistory(gap: int): History {
    n => if n == 0 then After(gap, 1, 0) else After(gap, 2, 1)
  }

  lemma StalePlain(gap: int)
    ensures Plain(StaleHistory(gap))
  {
    assert Later(After(gap, 0, 0), After(gap, 1, 0), true) && Later(After(gap, 1, 0), After(gap, 2, 1), true);
    forall n: nat
      ensures PlainAt(StaleHistory(gap), n)
    {}
  }

  lemma StaleRun(cfg: Config, env: Polls, offset: int, gap: int) returns (run: seq<State>)
    requires offset > gap || cfg.running <= 0
    requires env(0) == Good(Read(After(gap, 1, 0)), env(0).clock)
    requires env(1) == Good(Read(After(gap, 2, 1)), env(1).clock)
    ensures IsRun(cfg, env, offset, run) && EndsDone(run) && |run| == 2
  {
    var base := Base(Next(env(0)).c, 0, offset <= gap);
    var s0 := Asked(base, 1 + gap, 0, env(0).clock);
    assert First(cfg, env(0), offset) == s0;
    DoneTurn(cfg, env(1), 1, base, 1 + gap, 0, env(0).clock);
    RunOfTwo(cfg, env, offset, s0, Over(Done, base, 1 + gap));
    run := [s0, Over(Done, base, 1 + gap)];
  }

  /** Success with a checkpoint running, though the watcher was up throughout. */
  ghost predicate Deceived(cfg: Config, offset: int, gap: int, env: Polls, h: History, run: seq<State>) {
    && Advancing(cfg, env) && Reports(env, h) && Gap(h(0)) == gap && IsRun(cfg, env, offset, run) && EndsDone(run)
    && Watched(env, 0, |run| - 1) && Running(h(|run| - 1))
  }

  lemma DeceivedUnsafe(cfg: Config, offset: int, gap: int, env: Polls, h: History, run: seq<State>)
    requires Deceived(cfg, offset, gap, env, h, run) && Settles(cfg, env, h, offset, |run| - 1)
    ensures !Safe(cfg, offset, gap)
  {
    assert !SafeRun(cfg, offset, gap, env, h, run);
  }

  lemma StaleDeceives(cfg: Config, offset: int, gap: int) returns (env: Polls, h: History, run: seq<State>)
    requires (offset > gap || cfg.running <= 0) && cfg.poll > 0
    ensures Deceived(cfg, offset, gap, env, h, run)
    ensures Readable(env(0)) && (offset > gap ==> !IsAhead(Next(env(0)).c, offset))
  {
    h := StaleHistory(gap);
    env := Readings(h, cfg.poll);
    StalePlain(gap);
    assert h(0) == After(gap, 1, 0) && h(1) == After(gap, 2, 1);
    ReadingsReport(cfg, h, cfg.poll);
    run := StaleRun(cfg, env, offset, gap);
  }

  /**
   A stored offset past the gap hides the checkpoint that runs at the baseline: it ends, the next begins,
   and that is success.
   */
  lemma StaleOffset(cfg: Config, offset: int, gap: int)
    requires offset > gap && cfg.poll > 0
    ensures !Safe(cfg, offset, gap)
  {
    var env, h, run := StaleDeceives(cfg, offset, gap);
    DeceivedUnsafe(cfg, offset, gap, env, h, run);
  }

  /**
   At the first reading one runs or none; one runs at the next, when so many are over, and by the
   third it has ended and another has begun.
   */
  function LateHistory(gap: int, first: nat, over: nat): History {
    n =>
      if n == 0 then After(gap, first, 0)
      else if n == 1 then After(gap, over + 1, over)
      else After(gap, over + 2, over + 1)
  }

  lemma LatePlain(gap: int, first: nat, over: nat)
    requires first <= 1
    ensures Plain(LateHistory(gap, first, over))
  {
    assert Later(After(gap, first, 0), After(gap, over + 1, over), true);
    assert Later(After(gap, over + 1, over), After(gap, over + 2, over + 1), true);
    forall n: nat
      ensures PlainAt(LateHistory(gap, first, over), n)
    {}
  }

  lemma LateRun(cfg: Config, env: Polls, offset: int, gap: int, first: nat, over: nat) returns (run: seq<State>)
    requires cfg.running > 0 && env(1).clock >= env(0).clock + cfg.running && offset < gap + first <= gap + 1
    requires env(0) == Good(Read(After(gap, first, 0)), env(0).clock)
    requires env(1) == Good(Read(After(gap, over + 1, over)), env(1).clock)
    requires env(2) == Good(Read(After(gap, over + 2, over + 1)), env(2).clock)
    ensures IsRun(cfg, env, offset, run) && EndsDone(run) && |run| == 3
  {
    var s0 := Ahead(Base(Next(env(0)).c, 0, false), offset, env(0).clock + cfg.running);
    var base := Base(Next(env(1)).c, 1, true);
    var s1 := Asked(base, gap + 1, 0, env(1).clock);
    assert First(cfg, env(0), offset) == s0;
    assert Turn(cfg, env(1), 1, s0) == s1;
    DoneTurn(cfg, env(2), 2, base, gap + 1, 0, env(1).clock);
    RunOfTwo(cfg, env, offset, s0, s1);
    Extended(cfg, env, offset, [s0, s1], 1, Over(Done, base, gap + 1));
    run := [s0, s1] + [Over(Done, base, gap + 1)];
  }

  lemma LateDeceives(cfg: Config, offset: int, gap: int, first: nat, over: nat)
    returns (env: Polls, h: History, run: seq<State>)
    requires cfg.running > 0 && offset < gap + first <= gap + 1 && cfg.poll > 0
    ensures Deceived(cfg, offset, gap, env, h, run) && |run| == 3
    ensures first == 0 ==> QuietAt(cfg, env, h, 0)
    ensures h(0) == After(gap, first, 0) && h(1) == After(gap, over + 1, over) && Reached(cfg, env, 1)
  {
    h := LateHistory(gap, first, over);
    env := Readings(h, cfg.poll + cfg.running);
    LatePlain(gap, first, over);
    assert h(0) == After(gap, first, 0) && h(1) == After(gap, over + 1, over);
    assert h(2) == After(gap, over + 2, over + 1);
    ReadingsReport(cfg, h, cfg.poll + cfg.running);
    run := LateRun(cfg, env, offset, gap, first, over);
  }

  /**
   A stored offset under the gap: the checkpoint that runs when the wait gives up is taken for a gap,
   though none ran at first.
   */
  lemma LateOffset(cfg: Config, offset: int, gap: int)
    requires offset < gap && cfg.running > 0 && cfg.poll > 0
    ensures !Safe(cfg, offset, gap)
  {
    var env, h, run := LateDeceives(cfg, offset, gap, 0, 0);
    DeceivedUnsafe(cfg, offset, gap, env, h, run);
  }

  /** What ran at the first reading is over by a later one that the wait makes. */
  ghost predicate EndsInWait(cfg: Config, env: Polls, h: History, n: nat) {
    exists m: nat :: m <= n && EndedBy(cfg, env, h, m)
  }

  ghost predicate EndedBy(cfg: Config, env: Polls, h: History, m: nat) {
    Running(h(0)) && Reached(cfg, env, m) && h(m).over >= h(0).begun
  }

  /**
   That the checkpoint waited for ends in the wait is not enough, even with the gap stored: another that
   runs at the wait's last reading is taken for a gap as well. It can happen when the wait looks twice.
   */
  lemma AnotherRuns(cfg: Config, gap: int)
    requires cfg.poll > 0
    ensures (exists env: Polls, h: History, run: seq<State> :: Overlooked(cfg, gap, env, h, run)) <==> cfg.running > 0
  {
    if cfg.running > 0 {
      var env, h, run := LateDeceives(cfg, gap, gap, 1, 1);
      assert EndedBy(cfg, env, h, 1);
      assert Overlooked(cfg, gap, env, h, run);
    }
    if env: Polls, h: History, run: seq<State> :| Overlooked(cfg, gap, env, h, run) {
      var m: nat :| m <= |run| - 1 && EndedBy(cfg, env, h, m);
      assert m > 0;
      ClocksOn(cfg, env, 0, m - 1);
    }
  }

  ghost predicate Overlooked(cfg: Config, gap: int, env: Polls, h: History, run: seq<State>) {
    Deceived(cfg, gap, gap, env, h, run) && EndsInWait(cfg, env, h, |run| - 1)
  }

  /** If nothing is asked of the history no stored offset is safe: what runs may outlast the wait for it. */
  lemma NoneWithout(cfg: Config, offset: int, gap: int)
    requires cfg.poll > 0
    ensures exists env: Polls, h: History, run: seq<State> :: Deceived(cfg, offset, gap, env, h, run)
  {
    var env, h, run;
    if offset > gap || cfg.running <= 0 {
      env, h, run := StaleDeceives(cfg, offset, gap);
    } else {
      env, h, run := LateDeceives(cfg, offset, gap, 1, 0);
    }
    assert Deceived(cfg, offset, gap, env, h, run);
  }

  // ---- a watcher re-armed -------------------------------------------------

  /** A run that succeeds with a checkpoint running, none at its baseline, the gap stored and none taken. */
  ghost predicate Misled(cfg: Config, gap: int, env: Polls, h: History, run: seq<State>) {
    && Advancing(cfg, env) && Reports(env, h) && Gap(h(0)) == gap && IsRun(cfg, env, gap, run) && EndsDone(run)
    && !run[|run| - 1].base.taken && !Running(h(run[|run| - 1].base.at)) && Running(h(|run| - 1))
  }

  /**
   A watcher re-armed whose next reading fails leaves the old baseline: a checkpoint that began while
   it was down is not counted, and success comes with it running, though none ran at the baseline. It
   happens exactly when more than one unreadable reading is allowed.
   */
  lemma RearmedUnread(cfg: Config, gap: int)
    requires cfg.poll > 0
    ensures (exists env: Polls, h: History, run: seq<State> :: Misled(cfg, gap, env, h, run)) <==> cfg.unreadable > 1
  {
    if cfg.unreadable > 1 {
      RearmedMisleads(cfg, gap);
    }
    if env: Polls, h: History, run: seq<State> :| Misled(cfg, gap, env, h, run) {
      if cfg.unreadable <= 1 {
        WatchedSince(cfg, env, gap, run, |run| - 1);
        DoneSinceBase(cfg, env, h, gap, run);
        assert false;
      }
    }
  }

  ghost predicate UpSince(env: Polls, s: State, n: nat) {
    (s.Asked? || (s.Over? && s.out == Done)) && !s.base.taken ==> Watched(env, s.base.at, n)
  }

  lemma AskedUpSince(cfg: Config, env: Polls, n: nat, s: State)
    requires cfg.unreadable <= 1 && s.Asked? && n > 0 && UpSince(env, s, n - 1)
    ensures UpSince(env, AskedTurn(cfg, env(n), n, s), n)
  {}

  /** With one unreadable reading the end, the watcher was up at every reading since the baseline. */
  lemma {:induction false} WatchedSince(cfg: Config, env: Polls, offset: int, run: seq<State>, n: nat)
    requires cfg.unreadable <= 1 && IsRun(cfg, env, offset, run) && n < |run|
    ensures run[n].Ahead? ==> !run[n].base.taken && IsAhead(run[n].base.counts, run[n].offset)
    ensures UpSince(env, run[n], n)
  {
    if n > 0 {
      WatchedSince(cfg, env, offset, run, n - 1);
      assert Linked(cfg, env, run, n - 1);
      assert run[n] == Turn(cfg, env(n), n, run[n - 1]);
      if run[n - 1].Asked? {
        AskedUpSince(cfg, env, n, run[n - 1]);
      }
    }
  }

  lemma UnreadTurn(cfg: Config, p: Poll, n: nat, base: Base, offset: int, misses: nat, asked: int)
    requires Next(p).Seen? && !Next(p).c.ok && misses + 1 < cfg.unreadable && p.end <= cfg.deadline && !p.sleepFails
    ensures AskedTurn(cfg, p, n, Asked(base, offset, misses, asked)) == Asked(base, offset, misses + 1, asked)
  {}

  /**
   A run of three readings: no checkpoint at the baseline, the watcher re-armed and nothing read, and then
   success.
   */
  lemma UnreadRun(cfg: Config, env: Polls, gap: int) returns (run: seq<State>)
    requires cfg.unreadable > 1 && env(1).end <= cfg.deadline
    requires env(0) == Good(Read(After(gap, 0, 0)), env(0).clock)
    requires Next(env(1)).Seen? && !Next(env(1)).c.ok && !env(1).sleepFails
    requires env(2) == Good(Read(After(gap, 1, 1)), env(2).clock)
    ensures IsRun(cfg, env, gap, run) && EndsDone(run) && |run| == 3 && run[2].base == Base(Next(env(0)).c, 0, false)
  {
    var base := Base(Next(env(0)).c, 0, false);
    var s0 := Asked(base, gap, 0, env(0).end);
    var s1 := Asked(base, gap, 1, env(0).end);
    assert First(cfg, env(0), gap) == s0;
    UnreadTurn(cfg, env(1), 1, base, gap, 0, env(0).end);
    DoneTurn(cfg, env(2), 2, base, gap, 1, env(0).end);
    RunOfTwo(cfg, env, gap, s0, s1);
    Extended(cfg, env, gap, [s0, s1], 1, Over(Done, base, gap));
    run := [s0, s1] + [Over(Done, base, gap)];
  }

  /** While the watcher is down two begin and one of them ends; one start is missed. */
  function RearmedHistory(gap: int): History {
    n => if n == 0 then After(gap, 0, 0) else After(gap, 2, 1).(lostStarts := After(gap, 2, 1).lostStarts + 1)
  }

  function RearmedPolls(cfg: Config, gap: int): Polls {
    var none := Counts(0, 0, false);
    (n: nat) =>
      var time := cfg.deadline - cfg.poll + n * cfg.poll;
      if n == 1 then Poll(false, false, none, false, false, none, false, false, time, time)
      else Good(Read(After(gap, if n == 0 then 0 else 1, if n == 0 then 0 else 1)), time)
  }

  lemma RearmedAdvances(cfg: Config, gap: int)
    requires cfg.poll > 0
    ensures Advancing(cfg, RearmedPolls(cfg, gap))
  {
    var env := RearmedPolls(cfg, gap);
    forall n: nat
      ensures Advances(cfg, env, n)
    {
      assert (n + 1) * cfg.poll == n * cfg.poll + cfg.poll;
    }
  }

  lemma RearmedReports(cfg: Config, gap: int)
    ensures Reports(RearmedPolls(cfg, gap), RearmedHistory(gap))
  {
    var env, h := RearmedPolls(cfg, gap), RearmedHistory(gap);
    assert Sane(After(gap, 0, 0)) && Sane(After(gap, 1, 1)) && Sane(After(gap, 2, 1));
    forall n: nat
      ensures Reported(env, h, n)
    {}
  }

  lemma RearmedReadings(cfg: Config, gap: int)
    ensures var env := RearmedPolls(cfg, gap);
            && env(0) == Good(Read(After(gap, 0, 0)), env(0).clock)
            && env(2) == Good(Read(After(gap, 1, 1)), env(2).clock)
            && Next(env(1)).Seen? && !Next(env(1)).c.ok && !env(1).sleepFails && env(1).end == cfg.deadline
  {}

  lemma RearmedMisleads(cfg: Config, gap: int)
    requires cfg.poll > 0 && cfg.unreadable > 1
    ensures exists env: Polls, h: History, run: seq<State> :: Misled(cfg, gap, env, h, run)
  {
    var env, h := RearmedPolls(cfg, gap), RearmedHistory(gap);
    RearmedAdvances(cfg, gap);
    RearmedReports(cfg, gap);
    RearmedReadings(cfg, gap);
    assert h(0) == After(gap, 0, 0) && Running(h(2)) == Running(After(gap, 2, 1));
    var run := UnreadRun(cfg, env, gap);
    ShowMisled(cfg, gap, env, h, run);
  }

  lemma ShowMisled(cfg: Config, gap: int, env: Polls, h: History, run: seq<State>)
    requires Advancing(cfg, env) && Reports(env, h) && Gap(h(0)) == gap && !Running(h(0)) && Running(h(2))
    requires IsRun(cfg, env, gap, run) && EndsDone(run) && |run| == 3 && !run[2].base.taken && run[2].base.at == 0
    ensures exists env: Polls, h: History, run: seq<State> :: Misled(cfg, gap, env, h, run)
  {
    assert Misled(cfg, gap, env, h, run);
  }
}
