/** First in, first out: what the arrival times of the engine scheduler mean over a whole run
    of arrivals and iterations, and the order they put the jobs in. */
module EngineArrivals {
  import opened Wrappers
  import opened EngineScheduling

  // ---------- What an iteration finishes ----------

  /** A job of the batch that its iteration finishes: a Fill, or a Generate that reached a stop
      condition. */
  predicate Finishes(j: Job, stopped: set<nat>) {
    j.kind.Fill? || j.ctx in stopped
  }

  lemma BatchIsPresent(s: Sched, len: Lengths)
    requires SchedInv(s) && Schedule(s, len).Ok?
    ensures var n := Schedule(s, len).value;
            && (forall j :: j in n.running ==> j in Jobs(s))
            && multiset(n.running) + multiset(n.waiting) == Jobs(s)
            && n.jobArrival == s.jobArrival && n.taskArrival == s.taskArrival
  {
    hide Sorted, Kept, Reversed, HasKeys, Admitted, SchedInv;
    ScheduleConserves(s, len);
    var n := Schedule(s, len).value;
    forall j | j in n.running ensures j in Jobs(s) { assert j in multiset(n.running) + multiset(n.waiting); }
  }

  /** One job per context, so a context is done exactly if its own job is. */
  lemma DoneIff(s: Sched, batch: seq<Job>, stopped: set<nat>, j: Job)
    requires SchedInv(s) && j in batch && forall o :: o in batch ==> o in Jobs(s)
    ensures j.ctx in Done(batch, stopped) <==> Finishes(j, stopped)
  {
    if o :| o in batch && (o.kind.Fill? || o.ctx in stopped) && o.ctx == j.ctx {
      assert o in Jobs(s) && j in Jobs(s);
    }
  }

  /** An iteration finishes exactly the Fills of its batch and the Generates that stopped; what
      is left of the batch keeps running in order, and nothing else leaves. */
  lemma FinishesExactly(s: Sched, len: Lengths, stopped: set<nat>, room: Room)
    requires SchedInv(s) && Iterate(s, len, stopped, room).Ok?
    ensures var (batch, n) := Iterate(s, len, stopped, room).value;
            && (forall j :: j in batch ==> j in Jobs(s))
            && (forall j :: j in n.running <==> j in batch && j.kind.Generate? && j.ctx !in stopped)
            && (forall j :: j in Jobs(n) <==> j in Jobs(s) && !(j in batch && Finishes(j, stopped)))
  {
    hide Sorted, Kept, Reversed, HasKeys, Admitted, SchedInv, Schedule, Finish, Done;
    IterateKeeps(s, len, stopped, room);
    if s.running != [] || s.waiting != [] {
      var (batch, n) := Iterate(s, len, stopped, room).value;
      var m := Schedule(s, len).value;
      BatchIsPresent(s, len);
      RunKeeps(s, len, stopped);
      FinishLeaves(m.(running := []), m.running, Done(m.running, stopped));
      forall j | j in batch ensures j.ctx in Done(batch, stopped) <==> Finishes(j, stopped) {
        DoneIff(s, batch, stopped, j);
      }
      assert forall j :: j in n.running <==> j in batch && !Finishes(j, stopped);
      LeavesExactly(s, m.running, m.waiting, n, stopped);
    }
  }

  lemma LeavesExactly(s: Sched, batch: seq<Job>, waiting: seq<Job>, n: Sched, stopped: set<nat>)
    requires Jobs(s) == multiset(batch) + multiset(waiting) && n.waiting == waiting
    requires forall j :: j in n.running <==> j in batch && !Finishes(j, stopped)
    requires SchedInv(s)
    ensures forall j :: j in Jobs(n) <==> j in Jobs(s) && !(j in batch && Finishes(j, stopped))
  {
    hide SchedInv;
    forall j ensures j in Jobs(n) <==> j in Jobs(s) && !(j in batch && Finishes(j, stopped)) {
      if j in batch { OnceOnly(s, multiset(batch), multiset(waiting), j); }
      assert j in Jobs(s) <==> j in batch || j in waiting;
      assert j in Jobs(n) <==> j in n.running || j in n.waiting;
    }
  }

  lemma OnceOnly(s: Sched, a: multiset<Job>, b: multiset<Job>, j: Job)
    requires SchedInv(s) && Jobs(s) == a + b && j in a
    ensures j !in b
  {
    assert Jobs(s)[j] == 1;
  }

  /** The tokens of a batch counted the other way: those of the Fills that carry tokens, and
      one for every other job. */
  ghost function FillTokens(js: seq<Job>): nat {
    if js == [] then 0
    else
      var j := js[|js| - 1];
      FillTokens(js[..|js| - 1]) + if j.kind.Fill? && j.kind.tokens.Some? then j.kind.tokens.value else 0
  }

  ghost function Others(js: seq<Job>): nat {
    if js == [] then 0
    else
      var j := js[|js| - 1];
      Others(js[..|js| - 1]) + if j.kind.Fill? && j.kind.tokens.Some? then 0 else 1
  }

  lemma {:induction false} TokensSplit(js: seq<Job>)
    ensures TotalTokens(js) == FillTokens(js) + Others(js)
  {
    if js != [] { TokensSplit(js[..|js| - 1]); }
  }

  lemma BatchTokens(s: Sched, len: Lengths)
    requires SchedInv(s)
    ensures Schedule(s, len).Ok?
    ensures FillTokens(Schedule(s, len).value.running) + Others(Schedule(s, len).value.running) <= s.limits.maxTokens
  {
    hide SchedInv, Schedule, TotalTokens, FillTokens, Others;
    BatchWithinLimits(s, len);
    TokensSplit(Schedule(s, len).value.running);
  }

  // ---------- What the arrival times are ----------

  /** Event e brought job j, and no later event brought a job for the same context. */
  ghost predicate BroughtBy(events: seq<Event>, e: nat, j: Job) {
    && e < |events| && events[e].Arrive? && events[e].j == j
    && forall i :: e < i < |events| && events[i].Arrive? ==> events[i].j.ctx != j.ctx
  }

  ghost predicate ArrivalOf(events: seq<Event>, e: nat, task: nat) {
    e < |events| && events[e].Arrive? && events[e].j.task == task
  }

  /** The iteration finishes a job that ends the task. */
  ghost predicate EndedBy(r: Sched, e: Event, task: nat)
    requires e.Iteration?
  {
    var i := Iterate(r, e.len, e.stopped, e.room);
    i.Ok? && exists j :: j in i.value.0 && j.task == task && j.endFlag && Finishes(j, e.stopped)
  }

  ghost predicate EndsTask(limits: Limits, events: seq<Event>, e: nat, task: nat) {
    && e < |events| && events[e].Iteration?
    && exists r :: EngineRuns(Idle(limits), events[..e], r) && EndedBy(r, events[e], task)
  }

  ghost predicate EndedBetween(limits: Limits, events: seq<Event>, i: nat, n: nat, task: nat) {
    exists m :: i < m < n && EndsTask(limits, events, m, task)
  }

  /** Event e is the first arrival of the task since the task was last ended. */
  ghost predicate FirstSince(limits: Limits, events: seq<Event>, e: nat, task: nat) {
    && ArrivalOf(events, e, task) && !EndedBetween(limits, events, e, |events|, task)
    && forall i :: 0 <= i < e && ArrivalOf(events, i, task) ==> EndedBetween(limits, events, i, e, task)
  }

  /** Every arrival of the task was followed by its end. */
  ghost predicate AllEnded(limits: Limits, events: seq<Event>, task: nat) {
    forall i: nat :: ArrivalOf(events, i, task) ==> EndedBetween(limits, events, i, |events|, task)
  }

  lemma FirstUnique(limits: Limits, events: seq<Event>, d: nat, e: nat, task: nat)
    requires FirstSince(limits, events, d, task) && FirstSince(limits, events, e, task)
    ensures d == e
  {
    hide EndsTask;
    forall a: nat, b: nat | a < b && ArrivalOf(events, a, task) && FirstSince(limits, events, b, task)
      ensures EndedBetween(limits, events, a, |events|, task)
    {
      var m :| a < m < b && EndsTask(limits, events, m, task);
    }
  }

  lemma BroughtUnique(events: seq<Event>, d: nat, e: nat, j: Job)
    requires BroughtBy(events, d, j) && BroughtBy(events, e, j)
    ensures d == e
  {}

  ghost predicate JobTimed(events: seq<Event>, s: Sched, j: Job) {
    j.ctx in s.jobArrival && exists e: nat :: BroughtBy(events, e, j) && events[e].now == s.jobArrival[j.ctx]
  }

  ghost predicate TaskTimed(limits: Limits, events: seq<Event>, s: Sched, task: nat) {
    && task in s.taskArrival
    && exists e: nat :: FirstSince(limits, events, e, task) && events[e].now == s.taskArrival[task]
  }

  /** The arrival times that a run leaves. */
  ghost predicate Timed(limits: Limits, events: seq<Event>, s: Sched) {
    && (forall j :: j in Jobs(s) ==> JobTimed(events, s, j))
    && (forall task :: task in s.taskArrival ==> TaskTimed(limits, events, s, task))
    && (forall task :: task !in s.taskArrival ==> AllEnded(limits, events, task))
  }

  lemma {:induction false} RunsDeterministic(s0: Sched, events: seq<Event>, a: Sched, b: Sched)
    requires EngineRuns(s0, events, a) && EngineRuns(s0, events, b)
    ensures a == b
    decreases |events|
  {
    if events != [] {
      var k := |events| - 1;
      var p :| EngineRuns(s0, events[..k], p) && Allowed(p, events[k]) && Handle(p, events[k]) == Ok(a);
      var q :| EngineRuns(s0, events[..k], q) && Allowed(q, events[k]) && Handle(q, events[k]) == Ok(b);
      RunsDeterministic(s0, events[..k], p, q);
    }
  }

  /** Whether an event ends a task depends on the events up to it. */
  lemma EndsPrefix(limits: Limits, events: seq<Event>, k: nat, e: nat, task: nat)
    requires e < k <= |events|
    ensures EndsTask(limits, events[..k], e, task) <==> EndsTask(limits, events, e, task)
  {
    assert events[..k][..e] == events[..e];
  }

  lemma BetweenPrefix(limits: Limits, events: seq<Event>, k: nat, i: nat, n: nat, task: nat)
    requires n <= k <= |events|
    ensures EndedBetween(limits, events[..k], i, n, task) <==> EndedBetween(limits, events, i, n, task)
  {
    hide EndsTask;
    forall m | i < m < n ensures EndsTask(limits, events[..k], m, task) <==> EndsTask(limits, events, m, task) {
      EndsPrefix(limits, events, k, m, task);
    }
  }

  /** A last event that does not end the task leaves its first arrival. */
  lemma FirstStays(limits: Limits, events: seq<Event>, k: nat, e: nat, task: nat)
    requires |events| == k + 1 && FirstSince(limits, events[..k], e, task) && !EndsTask(limits, events, k, task)
    ensures FirstSince(limits, events, e, task)
  {
    hide EndsTask;
    forall i: nat, n: nat | n <= k
      ensures EndedBetween(limits, events[..k], i, n, task) <==> EndedBetween(limits, events, i, n, task)
    {
      BetweenPrefix(limits, events, k, i, n, task);
    }
    assert !EndedBetween(limits, events, e, k, task);
    forall i: nat | i < e && ArrivalOf(events, i, task) ensures EndedBetween(limits, events, i, e, task) {
      assert ArrivalOf(events[..k], i, task);
    }
  }

  lemma EndedStays(limits: Limits, events: seq<Event>, k: nat, task: nat)
    requires |events| == k + 1 && AllEnded(limits, events[..k], task) && !ArrivalOf(events, k, task)
    ensures AllEnded(limits, events, task)
  {
    hide EndsTask;
    forall i: nat | ArrivalOf(events, i, task) ensures EndedBetween(limits, events, i, |events|, task) {
      assert ArrivalOf(events[..k], i, task);
      BetweenPrefix(limits, events, k, i, k, task);
      var m :| i < m < k && EndsTask(limits, events, m, task);
    }
  }

  lemma EndedNow(limits: Limits, events: seq<Event>, k: nat, task: nat)
    requires |events| == k + 1 && EndsTask(limits, events, k, task)
    ensures AllEnded(limits, events, task)
  {
    forall i: nat | ArrivalOf(events, i, task) ensures EndedBetween(limits, events, i, |events|, task) {
      assert i != k;
    }
  }

  lemma FirstNow(limits: Limits, events: seq<Event>, k: nat, task: nat)
    requires |events| == k + 1 && AllEnded(limits, events[..k], task) && ArrivalOf(events, k, task)
    ensures FirstSince(limits, events, k, task)
  {
    hide EndsTask;
    forall i: nat | i < k && ArrivalOf(events, i, task) ensures EndedBetween(limits, events, i, k, task) {
      assert ArrivalOf(events[..k], i, task);
      BetweenPrefix(limits, events, k, i, k, task);
    }
  }

  lemma JobStays(events: seq<Event>, k: nat, r: Sched, s: Sched, j: Job)
    requires |events| == k + 1 && JobTimed(events[..k], r, j)
    requires events[k].Arrive? ==> events[k].j.ctx != j.ctx
    requires j.ctx in s.jobArrival && s.jobArrival[j.ctx] == r.jobArrival[j.ctx]
    ensures JobTimed(events, s, j)
  {
    var e: nat :| BroughtBy(events[..k], e, j) && events[..k][e].now == r.jobArrival[j.ctx];
    assert BroughtBy(events, e, j) by {
      forall i | e < i < |events| && events[i].Arrive? ensures events[i].j.ctx != j.ctx {
        if i < k { assert events[..k][i] == events[i]; }
      }
    }
  }

  lemma TaskStays(limits: Limits, events: seq<Event>, k: nat, r: Sched, s: Sched, task: nat)
    requires |events| == k + 1 && TaskTimed(limits, events[..k], r, task) && !EndsTask(limits, events, k, task)
    requires task in s.taskArrival && s.taskArrival[task] == r.taskArrival[task]
    ensures TaskTimed(limits, events, s, task)
  {
    hide EndsTask, EndedBetween;
    var e: nat :| FirstSince(limits, events[..k], e, task) && events[..k][e].now == r.taskArrival[task];
    FirstStays(limits, events, k, e, task);
  }

  lemma TimedArrive(limits: Limits, events: seq<Event>, k: nat, r: Sched, s: Sched)
    requires |events| == k + 1 && events[k].Arrive? && Timed(limits, events[..k], r)
    requires MayArrive(r, events[k].j) && s == AddJob(r, events[k].j, events[k].now)
    ensures Timed(limits, events, s)
  {
    hide TaskTimed, AllEnded, FirstSince, BroughtBy;
    var (j, now) := (events[k].j, events[k].now);
    assert Jobs(s) == Jobs(r) + multiset{j};
    forall o | o in Jobs(s) ensures JobTimed(events, s, o) {
      if o in Jobs(r) { JobStays(events, k, r, s, o); } else { BroughtNow(events, k, s); }
    }
    forall task | task in s.taskArrival ensures TaskTimed(limits, events, s, task) {
      if task in r.taskArrival {
        TaskStays(limits, events, k, r, s, task);
      } else {
        FirstNow(limits, events, k, task);
        TimedByFirst(limits, events, s, k, task);
      }
    }
    forall task | task !in s.taskArrival ensures AllEnded(limits, events, task) {
      EndedStays(limits, events, k, task);
    }
  }

  lemma BroughtNow(events: seq<Event>, k: nat, s: Sched)
    requires |events| == k + 1 && events[k].Arrive? && events[k].j.ctx in s.jobArrival
    requires s.jobArrival[events[k].j.ctx] == events[k].now
    ensures JobTimed(events, s, events[k].j)
  {
    assert BroughtBy(events, k, events[k].j);
  }

  lemma TimedByFirst(limits: Limits, events: seq<Event>, s: Sched, e: nat, task: nat)
    requires FirstSince(limits, events, e, task) && task in s.taskArrival && events[e].now == s.taskArrival[task]
    ensures TaskTimed(limits, events, s, task)
  {}

  /** What an iteration does to the arrival times: those of the jobs it finishes go, those of
      the tasks it ends go, the others keep their values. */
  lemma IterateTimes(s: Sched, e: Event)
    requires SchedInv(s) && e.Iteration? && Iterate(s, e.len, e.stopped, e.room).Ok?
    ensures var n := Iterate(s, e.len, e.stopped, e.room).value.1;
            && (forall j :: j in Jobs(n) ==> j in Jobs(s))
            && (forall c :: c in n.jobArrival ==> c in s.jobArrival && n.jobArrival[c] == s.jobArrival[c])
            && (forall t :: t in n.taskArrival <==> t in s.taskArrival && !EndedBy(s, e, t))
            && (forall t :: t in n.taskArrival ==> n.taskArrival[t] == s.taskArrival[t])
  {
    hide Sorted, Kept, Reversed, HasKeys, Admitted, SchedInv, Schedule, Finish, Done, Jobs;
    FinishesExactly(s, e.len, e.stopped, e.room);
    if s.running != [] || s.waiting != [] {
      var (batch, n) := Iterate(s, e.len, e.stopped, e.room).value;
      var m := Schedule(s, e.len).value;
      BatchIsPresent(s, e.len);
      var done := Done(batch, e.stopped);
      FinishLeaves(m.(running := []), m.running, done);
      forall j | j in batch ensures j.ctx in done <==> Finishes(j, e.stopped) {
        DoneIff(s, batch, e.stopped, j);
      }
      forall t ensures t in Ended(batch, done) <==> EndedBy(s, e, t) {
        if j :| j in batch && j.task == t && j.endFlag && Finishes(j, e.stopped) { assert Ends(j, done); }
      }
    }
  }

  lemma TimedIteration(limits: Limits, events: seq<Event>, k: nat, r: Sched, s: Sched)
    requires |events| == k + 1 && events[k].Iteration? && Timed(limits, events[..k], r)
    requires EngineRuns(Idle(limits), events[..k], r) && SchedInv(r) && SchedInv(s) && Handle(r, events[k]) == Ok(s)
    ensures Timed(limits, events, s)
  {
    hide JobTimed, TaskTimed, AllEnded, Iterate, EndedBy, EngineRuns, SchedInv;
    var e := events[k];
    IterateTimes(r, e);
    forall task ensures EndsTask(limits, events, k, task) <==> EndedBy(r, e, task) {
      EndsIff(limits, events, k, r, task);
    }
    forall j | j in Jobs(s) ensures JobTimed(events, s, j) {
      PresentKeyed(s, j);
      JobStays(events, k, r, s, j);
    }
    forall task | task in s.taskArrival ensures TaskTimed(limits, events, s, task) {
      TaskStays(limits, events, k, r, s, task);
    }
    forall task | task !in s.taskArrival ensures AllEnded(limits, events, task) {
      if task in r.taskArrival {
        EndedNow(limits, events, k, task);
      } else {
        EndedStays(limits, events, k, task);
      }
    }
  }

  lemma PresentKeyed(s: Sched, j: Job)
    requires SchedInv(s) && j in Jobs(s)
    ensures j.ctx in s.jobArrival
  {}

  lemma EndsIff(limits: Limits, events: seq<Event>, k: nat, r: Sched, task: nat)
    requires k < |events| && events[k].Iteration? && EngineRuns(Idle(limits), events[..k], r)
    ensures EndsTask(limits, events, k, task) <==> EndedBy(r, events[k], task)
  {
    hide EndedBy;
    if EndsTask(limits, events, k, task) {
      var q :| EngineRuns(Idle(limits), events[..k], q) && EndedBy(q, events[k], task);
      RunsDeterministic(Idle(limits), events[..k], q, r);
    }
  }

  /** Over every run: each present job's time is that of the event that brought it, and each
      task's time that of its first arrival since it was last ended; a task without a time has
      no arrival that was not followed by its end. */
  lemma {:induction false} ArrivalTimes(limits: Limits, events: seq<Event>, s: Sched)
    requires EngineRuns(Idle(limits), events, s)
    ensures SchedInv(s) && Timed(limits, events, s)
    decreases |events|
  {
    hide SchedInv, Timed, Iterate, AddJob;
    EngineLoopSafe(limits, events, s);
    if events == [] {
      NothingTimed(limits);
    } else {
      var k := |events| - 1;
      var r :| EngineRuns(Idle(limits), events[..k], r) && Allowed(r, events[k]) && Handle(r, events[k]) == Ok(s);
      ArrivalTimes(limits, events[..k], r);
      match events[k]
      case Arrive(_, _) => TimedArrive(limits, events, k, r, s);
      case Iteration(_, _, _) => TimedIteration(limits, events, k, r, s);
    }
  }

  lemma NothingTimed(limits: Limits)
    ensures Timed(limits, [], Idle(limits))
  {}

  // ---------- First in, first out ----------

  lemma JobTime(limits: Limits, events: seq<Event>, s: Sched, j: Job, e: nat)
    requires Timed(limits, events, s) && j in Jobs(s) && BroughtBy(events, e, j)
    ensures j.ctx in s.jobArrival && s.jobArrival[j.ctx] == events[e].now
  {
    assert JobTimed(events, s, j);
    var d: nat :| BroughtBy(events, d, j) && events[d].now == s.jobArrival[j.ctx];
    BroughtUnique(events, d, e, j);
  }

  lemma TaskTime(limits: Limits, events: seq<Event>, s: Sched, task: nat, e: nat)
    requires Timed(limits, events, s) && task in s.taskArrival && FirstSince(limits, events, e, task)
    ensures s.taskArrival[task] == events[e].now
  {
    hide EndedBetween, AllEnded;
    assert TaskTimed(limits, events, s, task);
    var d: nat :| FirstSince(limits, events, d, task) && events[d].now == s.taskArrival[task];
    FirstUnique(limits, events, d, e, task);
  }

  /** The candidates of a round in the order they are served. */
  ghost function Served(s: Sched): seq<Job>
    requires SchedInv(s)
  {
    CandidatesKeyed(s);
    Sorted(s, Candidates(s))
  }

  lemma ServedArePresent(s: Sched, i: nat)
    requires SchedInv(s) && i < |Served(s)|
    ensures Served(s)[i] in Jobs(s)
    ensures AllKeyed(s, Served(s)) && InOrder(s, Served(s))
  {
    hide Sorted, Admitted, HasKeys, SchedInv;
    CandidatesKeyed(s);
    SortedOrdered(s, Candidates(s));
    var x := Served(s)[i];
    assert x in multiset(Served(s));
    assert x in Candidates(s);
    assert x in s.running || x in s.waiting;
  }

  lemma ServedOnce(s: Sched, i: nat, j: nat)
    requires SchedInv(s) && i < j < |Served(s)|
    ensures Served(s)[i] != Served(s)[j]
  {
    hide Sorted, Admitted, HasKeys, JobsOk;
    CandidatesKeyed(s);
    var order, x := Served(s), Served(s)[i];
    var a := Admitted(s.limits, s.waiting, |s.running|, |s.running|);
    assert s.waiting == s.waiting[..a] + s.waiting[a..];
    assert multiset(order) == multiset(s.running) + multiset(s.waiting[..a]);
    assert Jobs(s) == multiset(order) + multiset(s.waiting[a..]);
    ServedArePresent(s, i);
    AtMostOnce(s, x);
    Twice(order, i, j);
  }

  lemma Twice(js: seq<Job>, i: nat, j: nat)
    requires i < j < |js| && multiset(js)[js[i]] <= 1
    ensures js[i] != js[j]
  {
    assert js == js[..j] + js[j..];
    assert js[..j][i] == js[i] && js[j..][0] == js[j];
    assert js[i] in multiset(js[..j]) && js[j] in multiset(js[j..]);
  }

  lemma AtMostOnce(s: Sched, j: Job)
    requires SchedInv(s) && j in Jobs(s)
    ensures Jobs(s)[j] == 1
  {}

  /** Of two candidates, the one served first belongs to the task whose first arrival since its
      last end has the earlier time, and within one task it came at the earlier time. */
  lemma ServedByTimes(limits: Limits, events: seq<Event>, s: Sched, i: nat, j: nat, ti: nat, tj: nat, ei: nat, ej: nat)
    requires EngineRuns(Idle(limits), events, s)
    ensures SchedInv(s)
    ensures i < j < |Served(s)| && BroughtBy(events, ei, Served(s)[i]) && BroughtBy(events, ej, Served(s)[j])
            && FirstSince(limits, events, ti, Served(s)[i].task)
               && FirstSince(limits, events, tj, Served(s)[j].task) ==>
              || events[ti].now < events[tj].now
              || (events[ti].now == events[tj].now && events[ei].now <= events[ej].now)
  {
    hide SchedInv, Timed, Served, Jobs, BroughtBy, EndedBetween;
    ArrivalTimes(limits, events, s);
    if i < j < |Served(s)| && BroughtBy(events, ei, Served(s)[i]) && BroughtBy(events, ej, Served(s)[j])
       && FirstSince(limits, events, ti, Served(s)[i].task) && FirstSince(limits, events, tj, Served(s)[j].task) {
      ServedArePresent(s, i);
      ServedArePresent(s, j);
      var a, b := Served(s)[i], Served(s)[j];
      assert HasKeys(s, a) && HasKeys(s, b) && KeyLeq(s, a, b);
      JobTime(limits, events, s, a, ei);
      JobTime(limits, events, s, b, ej);
      TaskTime(limits, events, s, a.task, ti);
      TaskTime(limits, events, s, b.task, tj);
    }
  }

  /** The clock moves between two arrivals. */
  ghost predicate Clocked(events: seq<Event>) {
    forall i, j :: 0 <= i < j < |events| && events[i].Arrive? && events[j].Arrive? ==> events[i].now < events[j].now
  }

  /** So, when the clock moves between arrivals, candidates are served in the order in which
      their tasks came, counted from the last end of the task, and jobs of one task in the
      order in which they came. */
  lemma ServedInOrder(limits: Limits, events: seq<Event>, s: Sched, i: nat, j: nat, ti: nat, tj: nat, ei: nat, ej: nat)
    requires EngineRuns(Idle(limits), events, s) && Clocked(events)
    ensures SchedInv(s)
    ensures i < j < |Served(s)| && BroughtBy(events, ei, Served(s)[i]) && BroughtBy(events, ej, Served(s)[j])
            && FirstSince(limits, events, ti, Served(s)[i].task)
               && FirstSince(limits, events, tj, Served(s)[j].task) ==>
              ti < tj || (ti == tj && ei < ej)
  {
    hide SchedInv, Timed, Served, Jobs, FirstSince, Clocked;
    ServedByTimes(limits, events, s, i, j, ti, tj, ei, ej);
    if i < j < |Served(s)| && BroughtBy(events, ei, Served(s)[i]) && BroughtBy(events, ej, Served(s)[j])
       && FirstSince(limits, events, ti, Served(s)[i].task) && FirstSince(limits, events, tj, Served(s)[j].task) {
      ServedOnce(s, i, j);
      FirstIsArrival(limits, events, ti, Served(s)[i].task);
      FirstIsArrival(limits, events, tj, Served(s)[j].task);
      EarlierTime(events, ti, tj);
      EarlierTime(events, ei, ej);
    }
  }

  lemma FirstIsArrival(limits: Limits, events: seq<Event>, e: nat, task: nat)
    requires FirstSince(limits, events, e, task)
    ensures ArrivalOf(events, e, task)
  {}

  lemma EarlierTime(events: seq<Event>, d: nat, e: nat)
    requires Clocked(events) && d < |events| && e < |events| && events[d].Arrive? && events[e].Arrive?
    ensures events[d].now < events[e].now <==> d < e
    ensures events[d].now == events[e].now <==> d == e
  {}

  /** Candidates that are in order already stay as they are: the sort is stable. */
  lemma {:induction false} SortedStays(s: Sched, js: seq<Job>)
    requires AllKeyed(s, js) && InOrder(s, js)
    ensures Sorted(s, js) == js
    decreases |js|
  {
    hide Insert, HasKeys, KeyLeq;
    if js != [] {
      var n := |js| - 1;
      SortedStays(s, js[..n]);
      assert js == js[..n] + [js[n]];
      assert n > 0 ==> js[..n][n - 1] == js[n - 1] && KeyLeq(s, js[n - 1], js[n]);
      InsertLast(s, js[..n], js[n]);
    }
  }

  lemma InsertLast(s: Sched, js: seq<Job>, x: Job)
    requires AllKeyed(s, js) && HasKeys(s, x) && (js != [] ==> KeyLeq(s, js[|js| - 1], x))
    ensures Insert(s, js, x) == js + [x]
  {}

  /** The clock has to move: three jobs of three tasks that come at one time, with room for one
      context, are next served first, third, second, because preempted jobs go back to the
      head of the waiting list one by one. */
  lemma TiesReverse(a: Job, b: Job, c: Job, now: int, len: Lengths, room: Room) returns (s: Sched)
    requires (forall x :: len(x) == 1) && room([a])
    requires a.ctx != b.ctx && a.ctx != c.ctx && b.ctx != c.ctx && a.task != b.task && a.task != c.task
             && b.task != c.task
    requires a.kind.Generate? && b.kind.Generate? && c.kind.Generate?
    ensures EngineRuns(Idle(Limits(3, 3, 1)), [Arrive(a, now), Arrive(b, now), Arrive(c, now),
                                               Iteration(len, {}, room)], s)
    ensures SchedInv(s) && Served(s) == [a, c, b]
  {
    hide EngineRuns, SchedInv, Iterate, Sorted, AddJob, Admitted;
    var lim, e := Limits(3, 3, 1), Iteration(len, {}, room);
    var s3 := ThreeArrive(lim, a, b, c, now);
    s := s3.(waiting := [c, b], running := [a]);
    OneStays(s3, a, b, c, len, room);
    var three := [Arrive(a, now), Arrive(b, now), Arrive(c, now)];
    RunStep(Idle(lim), three, s3, e, s);
    assert three + [e] == [Arrive(a, now), Arrive(b, now), Arrive(c, now), e];
    EngineLoopSafe(lim, three + [e], s);
    TakesTwo(s, c, b);
    assert [a] + [c, b] == [a, c, b];
    SortedStays(s, [a, c, b]);
  }

  lemma RunStep(s0: Sched, events: seq<Event>, r: Sched, e: Event, s: Sched)
    requires EngineRuns(s0, events, r) && Allowed(r, e) && Handle(r, e) == Ok(s)
    ensures EngineRuns(s0, events + [e], s)
  {
    hide Allowed, Handle;
    assert (events + [e])[..|events|] == events;
  }

  lemma OtherMayArrive(s: Sched, j: Job)
    requires s.running == [] && forall i :: 0 <= i < |s.waiting| ==>
               s.waiting[i].ctx != j.ctx && s.waiting[i].task != j.task
    ensures MayArrive(s, j)
  {
    forall o | o in Jobs(s) ensures o.ctx != j.ctx && o.task != j.task { assert o in s.waiting; }
  }

  lemma ThreeArrive(lim: Limits, a: Job, b: Job, c: Job, now: int) returns (s: Sched)
    requires a.ctx != b.ctx && a.ctx != c.ctx && b.ctx != c.ctx && a.task != b.task && a.task != c.task
             && b.task != c.task
    ensures EngineRuns(Idle(lim), [Arrive(a, now), Arrive(b, now), Arrive(c, now)], s)
    ensures s == Sched(lim, [a, b, c], [], map[a.ctx := now, b.ctx := now, c.ctx := now],
                       map[a.task := now, b.task := now, c.task := now])
  {
    hide EngineRuns, MayArrive, Jobs;
    var s0 := Idle(lim);
    var s1 := AddJob(s0, a, now);
    var s2 := AddJob(s1, b, now);
    s := AddJob(s2, c, now);
    assert EngineRuns(s0, [], s0) by { NoEvents(s0); }
    OtherMayArrive(s0, a);
    OtherMayArrive(s1, b);
    OtherMayArrive(s2, c);
    RunStep(s0, [], s0, Arrive(a, now), s1);
    RunStep(s0, [] + [Arrive(a, now)], s1, Arrive(b, now), s2);
    RunStep(s0, [] + [Arrive(a, now)] + [Arrive(b, now)], s2, Arrive(c, now), s);
    assert [] + [Arrive(a, now)] + [Arrive(b, now)] + [Arrive(c, now)]
           == [Arrive(a, now), Arrive(b, now), Arrive(c, now)];
  }

  lemma NoEvents(s: Sched)
    ensures EngineRuns(s, [], s)
  {}

  lemma TakesTwo(s: Sched, x: Job, y: Job)
    requires s.limits == Limits(3, 3, 1) && |s.running| == 1 && s.waiting == [x, y] && x.kind.Generate?
             && y.kind.Generate?
    ensures Candidates(s) == s.running + [x, y]
  {
    assert s.waiting[1..] == [y] && [y][1..] == [];
    assert Admitted(s.limits, [y], 2, 2) == 1;
  }

  lemma TakesThree(s: Sched)
    requires s.limits == Limits(3, 3, 1) && s.running == [] && |s.waiting| == 3
    requires forall i :: 0 <= i < 3 ==> s.waiting[i].kind.Generate?
    ensures Admitted(s.limits, s.waiting, 0, 0) == 3 && Candidates(s) == s.waiting
  {
    var w := s.waiting;
    assert w[1..][1..] == w[2..] && w[2..][1..] == [];
    assert w[1..][0] == w[1] && w[2..][0] == w[2];
    assert Admitted(s.limits, w[2..], 2, 2) == 1;
    assert Admitted(s.limits, w[1..], 1, 1) == 2;
  }

  /** The first of the three fits, the others go back. */
  lemma OneStays(s: Sched, a: Job, b: Job, c: Job, len: Lengths, room: Room)
    requires (forall x :: len(x) == 1) && room([a])
    requires s.limits == Limits(3, 3, 1) && s.waiting == [a, b, c] && s.running == []
    requires a.kind.Generate? && b.kind.Generate? && c.kind.Generate? && AllKeyed(s, [a, b, c]) && InOrder(s, [a, b, c])
    ensures Iterate(s, len, {}, room) == Ok(([a], s.(waiting := [c, b], running := [a])))
  {
    hide Schedule, Finish, Done, InOrder, AllKeyed;
    OneScheduled(s, a, b, c, len);
    assert Done([a], {}) == {} by { NoneDone(a); }
    FinishNone(s.(waiting := [c, b], running := [a]), a);
  }

  lemma NoneDone(a: Job)
    requires a.kind.Generate?
    ensures Done([a], {}) == {}
  {}

  lemma OneScheduled(s: Sched, a: Job, b: Job, c: Job, len: Lengths)
    requires s.limits == Limits(3, 3, 1) && s.waiting == [a, b, c] && s.running == [] && forall x :: len(x) == 1
    requires a.kind.Generate? && b.kind.Generate? && c.kind.Generate?
    requires AllKeyed(s, [a, b, c]) && InOrder(s, [a, b, c])
    ensures Schedule(s, len) == Ok(s.(waiting := [c, b], running := [a]))
  {
    hide Sorted, Reversed, Kept, InOrder, AllKeyed, Candidates, Schedule, Admitted;
    var w := [a, b, c];
    TakesThree(s);
    SortedStays(s, w);
    KeepsOne(w, len);
    ReversedPair(b, c);
    AllTaken(s, len, w, 1);
    assert w[..1] == [a] && w[1..] == [b, c];
  }

  /** A round that admits the whole list, which is in order, and keeps its first k jobs. */
  lemma AllTaken(s: Sched, len: Lengths, w: seq<Job>, k: nat)
    requires s.running == [] && s.waiting == w && Admitted(s.limits, w, 0, 0) == |w| && Candidates(s) == w
    requires AllKeyed(s, w) && Sorted(s, w) == w && Kept(w, len, s.limits.maxTotal, 0) == k && k <= |w|
    ensures Schedule(s, len) == Ok(s.(running := w[..k], waiting := Reversed(w[k..])))
  {
    hide Sorted, Reversed, Kept, HasKeys, Candidates, Admitted;
    assert |s.running| == 0 && w[|w|..] == [];
    assert Reversed(w[k..]) + [] == Reversed(w[k..]);
  }

  lemma KeepsOne(js: seq<Job>, len: Lengths)
    requires |js| > 1 && forall c :: len(c) == 1
    ensures Kept(js, len, 1, 0) == 1
  {
    assert Kept(js[1..], len, 1, 1) == 0;
  }

  lemma ReversedPair(b: Job, c: Job)
    ensures Reversed([b, c]) == [c, b]
  {
    hide Reversed;
    ReversedSnoc([b], c);
    ReversedSnoc([], b);
    ReversedEmpty();
    assert [] + [b] == [b] && [b] + [c] == [b, c];
  }

  lemma ReversedEmpty()
    ensures Reversed([]) == []
  {}

  lemma FinishNone(n: Sched, a: Job)
    requires n.running == [a]
    ensures Finish(n.(running := []), [a], {}) == Ok(n)
  {
    assert [a][1..] == [] && [] + [a] == [a];
    assert n.(running := []).(running := [] + [a]) == n;
    assert Finish(n, [], {}) == Ok(n);
  }

  // ---------- The waiting list ----------

  ghost function Time(s: Sched, j: Job): int {
    if j.ctx in s.jobArrival then s.jobArrival[j.ctx] else 0
  }

  /** From position n on, the waiting list holds jobs that were never admitted, in the order
      they came, and younger than every other job. */
  ghost predicate YoungestLast(s: Sched, n: nat) {
    && n <= |s.waiting|
    && (forall i, j :: 0 <= i < j < |s.waiting| && n <= j ==> Time(s, s.waiting[i]) < Time(s, s.waiting[j]))
    && (forall x, j :: x in s.running && n <= j < |s.waiting| ==> Time(s, x) < Time(s, s.waiting[j]))
  }

  lemma YoungestArrives(r: Sched, j: Job, now: int, n: nat)
    requires YoungestLast(r, n) && MayArrive(r, j) && forall o :: o in Jobs(r) ==> Time(r, o) < now
    ensures YoungestLast(AddJob(r, j, now), n)
  {
    hide MayArrive, YoungestLast, Time;
    TimesBefore(r, j, now);
    YoungestAppended(r, AddJob(r, j, now), n, j);
  }

  lemma TimesBefore(r: Sched, j: Job, now: int)
    requires MayArrive(r, j) && forall o :: o in Jobs(r) ==> Time(r, o) < now
    ensures var s := AddJob(r, j, now);
            && (forall x :: x in r.running ==> Time(s, x) == Time(r, x) && Time(r, x) < Time(s, j))
            && (forall i :: 0 <= i < |r.waiting| ==>
                 Time(s, r.waiting[i]) == Time(r, r.waiting[i]) && Time(r, r.waiting[i]) < Time(s, j))
  {
    forall x | x in r.running || x in r.waiting ensures x.ctx != j.ctx && Time(r, x) < now {
      assert x in Jobs(r);
    }
  }

  lemma YoungestAppended(r: Sched, s: Sched, n: nat, j: Job)
    requires YoungestLast(r, n) && s.running == r.running && s.waiting == r.waiting + [j]
    requires forall x :: x in r.running ==> Time(s, x) == Time(r, x) && Time(r, x) < Time(s, j)
    requires forall i :: 0 <= i < |r.waiting| ==>
               Time(s, r.waiting[i]) == Time(r, r.waiting[i]) && Time(r, r.waiting[i]) < Time(s, j)
    ensures YoungestLast(s, n)
  {
    hide Time;
  }

  ghost predicate SameTimes(r: Sched, s: Sched) {
    forall x :: x in s.running || x in s.waiting ==> Time(s, x) == Time(r, x)
  }

  /** A round: the first a jobs of the list are admitted, some of the candidates come back to
      its head, in any order. */
  lemma YoungestScheduled(r: Sched, s: Sched, n: nat, a: nat, back: seq<Job>)
    requires YoungestLast(r, n) && n <= |r.waiting| && a <= |r.waiting|
    requires s.waiting == back + r.waiting[a..] && SameTimes(r, s)
    requires forall x :: x in s.running || x in back ==> x in r.running || x in r.waiting[..a]
    ensures YoungestLast(s, |back| + if n > a then n - a else 0)
  {
    hide Time, SameTimes, YoungestLast;
    var m := |back| + if n > a then n - a else 0;
    forall x, j | x in s.running && m <= j < |s.waiting| ensures Time(s, x) < Time(s, s.waiting[j]) {
      OlderThan(r, n, a, j - |back| + a, x);
      EqualTimes(r, s, x, s.waiting[j]);
    }
    forall i, j | 0 <= i < j < |s.waiting| && m <= j ensures Time(s, s.waiting[i]) < Time(s, s.waiting[j]) {
      if i < |back| {
        OlderThan(r, n, a, j - |back| + a, s.waiting[i]);
      } else {
        WaitingOrder(r, n, i - |back| + a, j - |back| + a);
      }
      EqualTimes(r, s, s.waiting[i], s.waiting[j]);
    }
    Youngest(s, m);
  }

  lemma Youngest(s: Sched, n: nat)
    requires n <= |s.waiting|
    requires forall i, j :: 0 <= i < j < |s.waiting| && n <= j ==> Time(s, s.waiting[i]) < Time(s, s.waiting[j])
    requires forall x, j :: x in s.running && n <= j < |s.waiting| ==> Time(s, x) < Time(s, s.waiting[j])
    ensures YoungestLast(s, n)
  {}

  lemma WaitingOrder(s: Sched, n: nat, i: nat, j: nat)
    requires YoungestLast(s, n) && i < j < |s.waiting| && n <= j
    ensures Time(s, s.waiting[i]) < Time(s, s.waiting[j])
  {}

  lemma OlderThan(r: Sched, n: nat, a: nat, j: nat, x: Job)
    requires YoungestLast(r, n) && a <= j < |r.waiting| && n <= j && (x in r.running || x in r.waiting[..a])
    ensures Time(r, x) < Time(r, r.waiting[j])
  {
    hide Time;
    if x in r.waiting[..a] {
      var i :| 0 <= i < a && r.waiting[i] == x;
    }
  }

  lemma EqualTimes(r: Sched, s: Sched, x: Job, y: Job)
    requires SameTimes(r, s) && (x in s.running || x in s.waiting) && (y in s.running || y in s.waiting)
    ensures Time(s, x) == Time(r, x) && Time(s, y) == Time(r, y)
  {}

  lemma YoungestIterates(r: Sched, e: Event, n: nat) returns (m: nat)
    requires SchedInv(r) && YoungestLast(r, n) && e.Iteration? && Iterate(r, e.len, e.stopped, e.room).Ok?
    requires SchedInv(Iterate(r, e.len, e.stopped, e.room).value.1)
    ensures YoungestLast(Iterate(r, e.len, e.stopped, e.room).value.1, m)
  {
    hide SchedInv, YoungestLast, Time, EndedBy, Iterate;
    var s := Iterate(r, e.len, e.stopped, e.room).value.1;
    var a, back := IterateLists(r, e);
    IterateTimes(r, e);
    KeptTimes(r, s);
    TailFits(r, n);
    m := |back| + if n > a then n - a else 0;
    YoungestScheduled(r, s, n, a, back);
  }

  lemma TailFits(s: Sched, n: nat)
    requires YoungestLast(s, n)
    ensures n <= |s.waiting|
  {}

  /** What an iteration does to the lists: some first jobs are admitted, some candidates come
      back to the head of the waiting list, and what runs are candidates. */
  lemma IterateLists(r: Sched, e: Event) returns (a: nat, back: seq<Job>)
    requires SchedInv(r) && e.Iteration? && Iterate(r, e.len, e.stopped, e.room).Ok?
    ensures var s := Iterate(r, e.len, e.stopped, e.room).value.1;
            && a <= |r.waiting| && s.waiting == back + r.waiting[a..]
            && forall x :: x in s.running || x in back ==> x in r.running || x in r.waiting[..a]
  {
    hide Sorted, Kept, Reversed, HasKeys, Admitted, SchedInv, Finish, Done, Schedule;
    a, back := 0, [];
    if r.running != [] || r.waiting != [] {
      BatchWithinLimits(r, e.len);
      CandidatesKeyed(r);
      ScheduleSpec(r, e.len);
      a := Admitted(r.limits, r.waiting, |r.running|, |r.running|);
      var rest := Preempted(r, e.len);
      back := Reversed(rest);
      var mid := Schedule(r, e.len).value;
      FinishLeaves(mid.(running := []), mid.running, Done(mid.running, e.stopped));
      FromCandidates(r, mid, a, rest, back);
    }
  }

  lemma FromCandidates(r: Sched, mid: Sched, a: nat, rest: seq<Job>, back: seq<Job>)
    requires a <= |r.waiting| && multiset(mid.running + rest) == multiset(r.running + r.waiting[..a])
    requires multiset(back) == multiset(rest)
    ensures forall x :: x in mid.running || x in back ==> x in r.running || x in r.waiting[..a]
  {
    forall x | x in mid.running || x in back ensures x in r.running || x in r.waiting[..a] {
      assert x in back ==> x in multiset(back);
      assert x in multiset(mid.running + rest);
      assert x in r.running + r.waiting[..a];
    }
  }

  lemma KeptTimes(r: Sched, s: Sched)
    requires SchedInv(s) && forall c :: c in s.jobArrival ==> c in r.jobArrival && s.jobArrival[c] == r.jobArrival[c]
    ensures SameTimes(r, s)
  {
    forall x | x in s.running || x in s.waiting ensures x.ctx in s.jobArrival {
      assert x in Jobs(s);
    }
  }

  /** Over every run with a clock that moves: some tail of the waiting list is the jobs never
      admitted, in the order of arrival, and all came after every other present job. */
  lemma {:induction false} WaitingInOrder(limits: Limits, events: seq<Event>, s: Sched) returns (n: nat)
    requires EngineRuns(Idle(limits), events, s) && Clocked(events)
    ensures SchedInv(s) && YoungestLast(s, n)
    decreases |events|
  {
    hide SchedInv, YoungestLast, Iterate, AddJob, Timed, Time;
    ArrivalTimes(limits, events, s);
    if events == [] {
      n := 0;
      Youngest(s, 0);
    } else {
      var k := |events| - 1;
      var r :| EngineRuns(Idle(limits), events[..k], r) && Allowed(r, events[k]) && Handle(r, events[k]) == Ok(s);
      n := WaitingInOrder(limits, events[..k], r);
      match events[k]
      case Arrive(j, now) =>
        ArrivalTimes(limits, events[..k], r);
        AllBefore(limits, events, k, r);
        YoungestArrives(r, j, now, n);
      case Iteration(_, _, _) => n := YoungestIterates(r, events[k], n);
    }
  }

  lemma AllBefore(limits: Limits, events: seq<Event>, k: nat, r: Sched)
    requires |events| == k + 1 && Clocked(events) && events[k].Arrive? && Timed(limits, events[..k], r)
    ensures forall o :: o in Jobs(r) ==> Time(r, o) < events[k].now
  {
    forall o | o in Jobs(r) ensures Time(r, o) < events[k].now {
      assert JobTimed(events[..k], r, o);
      var e: nat :| BroughtBy(events[..k], e, o) && events[..k][e].now == r.jobArrival[o.ctx];
      assert events[e] == events[..k][e];
    }
  }
}
