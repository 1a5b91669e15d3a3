/** `EngineScheduler` as the object it is; each loop is proved against `EngineScheduling`. */
module EngineSchedulerObject {
  import opened Wrappers
  import opened EngineScheduling

  class EngineScheduler {
    const limits: Limits
    var waiting: seq<Job>
    var running: seq<Job>
    var jobArrival: map<nat, int>
    var taskArrival: map<nat, int>

    function View(): Sched
      reads this
    {
      Sched(limits, waiting, running, jobArrival, taskArrival)
    }

    constructor (limits: Limits)
      ensures View() == Idle(limits) && SchedInv(View())
    {
      this.limits := limits;
      waiting, running, jobArrival, taskArrival := [], [], map[], map[];
    }

    /** `add_job`.  A task keeps the time of its first job until it ends; over whole runs see
        `EngineArrivals`. */
    method Add(j: Job, now: int)
      modifies this
      ensures View() == AddJob(old(View()), j, now)
      ensures waiting == old(waiting) + [j] && jobArrival == old(jobArrival)[j.ctx := now]
      ensures j.task in old(taskArrival) ==> taskArrival == old(taskArrival)
      ensures j.task !in old(taskArrival) ==> taskArrival == old(taskArrival)[j.task := now]
      ensures old(SchedInv(View()) && MayArrive(View(), j)) ==> SchedInv(View())
    {
      ghost var s := View();
      waiting := waiting + [j];
      jobArrival := jobArrival[j.ctx := now];
      if j.task !in taskArrival { taskArrival := taskArrival[j.task := now]; }
      assert View() == AddJob(s, j, now);
      if SchedInv(s) && MayArrive(s, j) { ArriveKeeps(s, j, now); }
    }

    /** The admission loop of `schedule`. */
    method Admit()
      modifies this`waiting, this`running
      ensures running == Candidates(old(View()))
      ensures waiting == old(waiting)[Admitted(limits, old(waiting), |old(running)|, |old(running)|)..]
    {
      var num: nat, toks: nat := |running|, |running|;
      ghost var i := 0;
      while waiting != []
        invariant 0 <= i <= |old(waiting)|
        invariant waiting == old(waiting)[i..] && running == old(running) + old(waiting)[..i]
        invariant i + Admitted(limits, waiting, num, toks) ==
                  Admitted(limits, old(waiting), |old(running)|, |old(running)|)
        decreases |waiting|
      {
        var job := waiting[0];
        if num + 1 > limits.maxBatch { break; }
        if toks + Tokens(job) > limits.maxTokens { break; }
        running := running + [job];
        waiting := waiting[1..];
        num, toks, i := num + 1, toks + Tokens(job), i + 1;
      }
    }

    /** The loop that keeps what fits and preempts the rest, one at a time to the head of
        the waiting list. */
    method Preempt(len: Lengths)
      modifies this`waiting, this`running
      ensures var k := Kept(old(running), len, limits.maxTotal, 0);
              && running == old(running)[..k]
              && waiting == Reversed(old(running)[k..]) + old(waiting)
    {
      hide Kept, Reversed;
      ghost var order, before := running, waiting;
      ghost var k := Kept(order, len, limits.maxTotal, 0);
      var kept: seq<Job> := [];
      var used: nat := 0;
      var preempted := false;
      var i := 0;
      assert order[0..] == order;
      while i < |running|
        invariant 0 <= i <= |order| && running == order
        invariant !preempted ==> i <= k && kept == order[..i] && waiting == before
        invariant !preempted ==> i + Kept(order[i..], len, limits.maxTotal, used) == k
        invariant preempted ==> k <= i && kept == order[..k] && waiting == Reversed(order[k..i]) + before
      {
        var job := running[i];
        KeptStep(order, i, len, limits.maxTotal, used);
        if !preempted && used + len(job.ctx) > limits.maxTotal {
          preempted := true;
          ReversedEmpty(order, k);
        }
        if preempted {
          ReversedStep(order, k, i, before);
          waiting := [job] + waiting;
        } else {
          kept := kept + [job];
          used := used + len(job.ctx);
        }
        i := i + 1;
      }
      KeptEnd(order, len, limits.maxTotal, used);
      assert order[k..|order|] == order[k..];
      if !preempted { ReversedEmpty(order, k); }
      running := kept;
    }

    /** `schedule`; false is the `KeyError` of the sort. */
    method Schedule(len: Lengths) returns (ok: bool)
      modifies this`waiting, this`running
      ensures match EngineScheduling.Schedule(old(View()), len)
              case Ok(n) => ok && View() == n
              case Raised => !ok
    {
      ghost var s := View();
      Admit();
      if !AllKeyed(View(), running) {
        assert exists i :: 0 <= i < |running| && !HasKeys(View(), running[i]) && !HasKeys(s, running[i]);
        return false;
      }
      KeysFrame(View(), s, running);
      running := Sorted(View(), running);
      Preempt(len);
      return true;
    }

    /** `finish`. */
    method FinishJobs(done: set<nat>) returns (ok: bool)
      modifies this
      ensures match Finish(old(View()).(running := []), old(running), done)
              case Ok(n) => ok && View() == n
              case Raised => !ok
    {
      var todo := running;
      running := [];
      var i := 0;
      while i < |todo|
        invariant 0 <= i <= |todo|
        invariant Finish(View(), todo[i..], done) == Finish(old(View()).(running := []), todo, done)
      {
        var j := todo[i];
        assert todo[i..][1..] == todo[i + 1..];
        if j.ctx !in done {
          running := running + [j];
        } else {
          if j.ctx !in jobArrival || (j.endFlag && j.task !in taskArrival) { return false; }
          jobArrival := jobArrival - {j.ctx};
          if j.endFlag { taskArrival := taskArrival - {j.task}; }
        }
        i := i + 1;
      }
      return true;
    }
  }

  lemma KeptStep(order: seq<Job>, i: nat, len: Lengths, max: nat, used: nat)
    requires i < |order|
    ensures Kept(order[i..], len, max, used) ==
            if used + len(order[i].ctx) > max then 0 else 1 + Kept(order[i + 1..], len, max, used + len(order[i].ctx))
  {
    assert order[i..][1..] == order[i + 1..];
  }

  lemma KeptEnd(order: seq<Job>, len: Lengths, max: nat, used: nat)
    ensures Kept(order[|order|..], len, max, used) == 0
  {}

  lemma ReversedEmpty(order: seq<Job>, k: nat)
    requires k <= |order|
    ensures Reversed(order[k..k]) == []
  {}

  lemma ReversedStep(order: seq<Job>, k: nat, i: nat, tail: seq<Job>)
    requires k <= i < |order|
    ensures Reversed(order[k..i + 1]) + tail == [order[i]] + (Reversed(order[k..i]) + tail)
  {
    hide Reversed;
    assert order[k..i + 1] == order[k..i] + [order[i]];
    ReversedSnoc(order[k..i], order[i]);
    assert [order[i]] + Reversed(order[k..i]) + tail == [order[i]] + (Reversed(order[k..i]) + tail);
  }

  /** The sort looks at the arrival times only. */
  lemma {:induction false} KeysFrame(s: Sched, n: Sched, js: seq<Job>)
    requires s.jobArrival == n.jobArrival && s.taskArrival == n.taskArrival && AllKeyed(s, js)
    ensures AllKeyed(n, js) && Sorted(s, js) == Sorted(n, js)
    decreases |js|
  {
    forall i | 0 <= i < |js| ensures HasKeys(n, js[i]) { assert HasKeys(s, js[i]); }
    if js != [] {
      var k := |js| - 1;
      KeysFrame(s, n, js[..k]);
      InsertFrame(s, n, Sorted(s, js[..k]), js[k]);
    }
  }

  lemma {:induction false} InsertFrame(s: Sched, n: Sched, js: seq<Job>, x: Job)
    requires s.jobArrival == n.jobArrival && s.taskArrival == n.taskArrival
    requires AllKeyed(s, js) && HasKeys(s, x) && AllKeyed(n, js) && HasKeys(n, x)
    ensures Insert(s, js, x) == Insert(n, js, x)
    decreases |js|
  {
    if js != [] && !KeyLeq(s, js[|js| - 1], x) {
      InsertFrame(s, n, js[..|js| - 1], x);
    }
  }
}
