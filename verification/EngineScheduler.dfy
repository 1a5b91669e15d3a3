/** The per-engine FIFO scheduler (`parrot/engine/engine_scheduler.py`, default policy):
    admission from the waiting list, a sort by arrival, and preemption of the jobs whose
    contexts do not fit. */
module EngineScheduling {
  import opened Wrappers

  /** A Fill carries its number of tokens, or none when it has text instead. */
  datatype Kind = Fill(tokens: Option<nat>) | Generate

  datatype Job = Job(kind: Kind, task: nat, ctx: nat, endFlag: bool)

  datatype Limits = Limits(maxBatch: nat, maxTokens: nat, maxTotal: nat)

  datatype Sched = Sched(
    limits: Limits,
    waiting: seq<Job>,
    running: seq<Job>,
    jobArrival: map<nat, int>,
    taskArrival: map<nat, int>)

  /** `job_num_tokens`. */
  function Tokens(j: Job): nat {
    match j.kind
    case Fill(Some(n)) => n
    case _ => 1
  }

  function TotalTokens(js: seq<Job>): nat {
    if js == [] then 0 else TotalTokens(js[..|js| - 1]) + Tokens(js[|js| - 1])
  }

  /** Context lengths change between iterations, so they come as a parameter. */
  type Lengths = nat -> nat

  function TotalLen(js: seq<Job>, len: Lengths): nat {
    if js == [] then 0 else TotalLen(js[..|js| - 1], len) + len(js[|js| - 1].ctx)
  }

  // ---------- Admission ----------

  /** How many jobs the admission loop takes from the head of the waiting list, with
      `num` jobs and `toks` tokens already in the batch. */
  function Admitted(lim: Limits, waiting: seq<Job>, num: nat, toks: nat): (k: nat)
    ensures k <= |waiting|
  {
    if waiting == [] || num + 1 > lim.maxBatch || toks + Tokens(waiting[0]) > lim.maxTokens then 0
    else 1 + Admitted(lim, waiting[1..], num + 1, toks + Tokens(waiting[0]))
  }

  lemma {:induction false} TotalTokensConcat(a: seq<Job>, b: seq<Job>)
    ensures TotalTokens(a + b) == TotalTokens(a) + TotalTokens(b)
    decreases |b|
  {
    if b == [] {
      assert a + b == a;
    } else {
      var n := |b| - 1;
      TotalTokensConcat(a, b[..n]);
      assert (a + b)[..|a + b| - 1] == a + b[..n];
    }
  }

  /** Admission respects both limits, and stops only at the end of the list or at a job
      that would break one of them. */
  lemma {:induction false} AdmittedSpec(lim: Limits, waiting: seq<Job>, num: nat, toks: nat)
    ensures var k := Admitted(lim, waiting, num, toks);
            && (num <= lim.maxBatch ==> num + k <= lim.maxBatch)
            && (toks <= lim.maxTokens ==> toks + TotalTokens(waiting[..k]) <= lim.maxTokens)
            && (k < |waiting| ==>
                  num + k + 1 > lim.maxBatch || toks + TotalTokens(waiting[..k]) + Tokens(waiting[k]) > lim.maxTokens)
    decreases |waiting|
  {
    var k := Admitted(lim, waiting, num, toks);
    if k > 0 {
      AdmittedSpec(lim, waiting[1..], num + 1, toks + Tokens(waiting[0]));
      assert waiting[..k] == [waiting[0]] + waiting[1..][..k - 1];
      TotalTokensConcat([waiting[0]], waiting[1..][..k - 1]);
      assert [waiting[0]][..0] == [];
      assert TotalTokens([waiting[0]]) == Tokens(waiting[0]);
    }
  }

  // ---------- Sorting by arrival ----------

  predicate HasKeys(s: Sched, j: Job) {
    j.task in s.taskArrival && j.ctx in s.jobArrival
  }

  predicate KeyLeq(s: Sched, a: Job, b: Job)
    requires HasKeys(s, a) && HasKeys(s, b)
  {
    s.taskArrival[a.task] < s.taskArrival[b.task]
    || (s.taskArrival[a.task] == s.taskArrival[b.task] && s.jobArrival[a.ctx] <= s.jobArrival[b.ctx])
  }

  predicate AllKeyed(s: Sched, js: seq<Job>) {
    forall i :: 0 <= i < |js| ==> HasKeys(s, js[i])
  }

  /** Insert behind every element that is not greater: what keeps the sort stable. */
  function Insert(s: Sched, js: seq<Job>, x: Job): (r: seq<Job>)
    requires AllKeyed(s, js) && HasKeys(s, x)
    ensures multiset(r) == multiset(js) + multiset{x} && AllKeyed(s, r)
    decreases |js|
  {
    if js == [] || KeyLeq(s, js[|js| - 1], x) then js + [x]
    else
      var n := |js| - 1;
      assert js == js[..n] + [js[n]];
      Insert(s, js[..n], x) + [js[n]]
  }

  /** `list.sort` by (task arrival, job arrival). */
  function Sorted(s: Sched, js: seq<Job>): (r: seq<Job>)
    requires AllKeyed(s, js)
    ensures multiset(r) == multiset(js) && AllKeyed(s, r)
    decreases |js|
  {
    if js == [] then []
    else
      var n := |js| - 1;
      assert js == js[..n] + [js[n]];
      Insert(s, Sorted(s, js[..n]), js[n])
  }

  ghost predicate InOrder(s: Sched, js: seq<Job>)
    requires AllKeyed(s, js)
  {
    forall i, j :: 0 <= i < j < |js| ==> KeyLeq(s, js[i], js[j])
  }

  lemma SnocOrdered(s: Sched, js: seq<Job>, x: Job)
    requires AllKeyed(s, js) && HasKeys(s, x) && InOrder(s, js)
    requires forall i :: 0 <= i < |js| ==> KeyLeq(s, js[i], x)
    ensures AllKeyed(s, js + [x]) && InOrder(s, js + [x])
  {}

  /** Insertion only rearranges. */
  lemma InsertedFrom(s: Sched, js: seq<Job>, x: Job, i: nat)
    requires AllKeyed(s, js) && HasKeys(s, x) && i < |Insert(s, js, x)|
    ensures Insert(s, js, x)[i] == x || Insert(s, js, x)[i] in js
  {
    hide Insert, HasKeys;
    assert Insert(s, js, x)[i] in multiset(Insert(s, js, x));
  }

  lemma {:induction false} InsertOrdered(s: Sched, js: seq<Job>, x: Job)
    requires AllKeyed(s, js) && HasKeys(s, x) && InOrder(s, js)
    ensures InOrder(s, Insert(s, js, x))
    decreases |js|
  {
    if js == [] || KeyLeq(s, js[|js| - 1], x) {
      SnocOrdered(s, js, x);
    } else {
      var n := |js| - 1;
      var r := Insert(s, js[..n], x);
      InsertOrdered(s, js[..n], x);
      forall i | 0 <= i < |r| ensures KeyLeq(s, r[i], js[n]) { InsertedFrom(s, js[..n], x, i); }
      SnocOrdered(s, r, js[n]);
    }
  }

  lemma {:induction false} SortedOrdered(s: Sched, js: seq<Job>)
    requires AllKeyed(s, js)
    ensures InOrder(s, Sorted(s, js))
    decreases |js|
  {
    if js != [] {
      var n := |js| - 1;
      SortedOrdered(s, js[..n]);
      InsertOrdered(s, Sorted(s, js[..n]), js[n]);
    }
  }

  // ---------- Preemption ----------

  /** How many jobs the loop keeps before the first whose context does not fit. */
  function Kept(js: seq<Job>, len: Lengths, max: nat, used: nat): (k: nat)
    ensures k <= |js|
  {
    if js == [] || used + len(js[0].ctx) > max then 0
    else 1 + Kept(js[1..], len, max, used + len(js[0].ctx))
  }

  lemma {:induction false} TotalLenConcat(a: seq<Job>, b: seq<Job>, len: Lengths)
    ensures TotalLen(a + b, len) == TotalLen(a, len) + TotalLen(b, len)
    decreases |b|
  {
    if b == [] {
      assert a + b == a;
    } else {
      var n := |b| - 1;
      TotalLenConcat(a, b[..n], len);
      assert (a + b)[..|a + b| - 1] == a + b[..n];
    }
  }

  /** The jobs kept are exactly the longest prefix whose total context length fits. */
  lemma {:induction false} KeptSpec(js: seq<Job>, len: Lengths, max: nat, used: nat)
    requires used <= max
    ensures var k := Kept(js, len, max, used);
            && used + TotalLen(js[..k], len) <= max
            && (forall n :: k < n <= |js| ==> used + TotalLen(js[..n], len) > max)
    decreases |js|
  {
    var k := Kept(js, len, max, used);
    if js != [] {
      var head := [js[0]];
      assert head[..0] == [] && TotalLen(head, len) == len(js[0].ctx);
      forall n | 0 < n <= |js| ensures TotalLen(js[..n], len) == len(js[0].ctx) + TotalLen(js[1..][..n - 1], len) {
        assert js[..n] == head + js[1..][..n - 1];
        TotalLenConcat(head, js[1..][..n - 1], len);
      }
      if k > 0 { KeptSpec(js[1..], len, max, used + len(js[0].ctx)); }
    }
  }

  function Reversed(js: seq<Job>): (r: seq<Job>)
    ensures multiset(r) == multiset(js) && |r| == |js|
    decreases |js|
  {
    if js == [] then []
    else
      var n := |js| - 1;
      assert js == js[..n] + [js[n]];
      [js[n]] + Reversed(js[..n])
  }

  lemma {:induction false} ReversedSnoc(js: seq<Job>, x: Job)
    ensures Reversed(js + [x]) == [x] + Reversed(js)
  {
    assert (js + [x])[..|js|] == js;
  }

  // ---------- One scheduling round ----------

  function Candidates(s: Sched): seq<Job> {
    s.running + s.waiting[..Admitted(s.limits, s.waiting, |s.running|, |s.running|)]
  }

  /** `schedule`: raises when a sort key is missing. */
  function Schedule(s: Sched, len: Lengths): Result<Sched> {
    if !AllKeyed(s, Candidates(s)) then Raised
    else
      var order := Sorted(s, Candidates(s));
      var k := Kept(order, len, s.limits.maxTotal, 0);
      Ok(s.(running := order[..k],
            waiting := Reversed(order[k..]) + s.waiting[Admitted(s.limits, s.waiting, |s.running|, |s.running|)..]))
  }

  /** The jobs one round pushes back, in arrival order. */
  ghost function Preempted(s: Sched, len: Lengths): seq<Job>
    requires AllKeyed(s, Candidates(s))
  {
    Sorted(s, Candidates(s))[Kept(Sorted(s, Candidates(s)), len, s.limits.maxTotal, 0)..]
  }

  lemma SplitMultiset(a: seq<Job>, k: nat)
    requires k <= |a|
    ensures multiset(a) == multiset(a[..k]) + multiset(a[k..])
  {
    assert a == a[..k] + a[k..];
  }

  /** One round loses no job and invents none. */
  lemma ScheduleConserves(s: Sched, len: Lengths)
    requires Schedule(s, len).Ok?
    ensures var n := Schedule(s, len).value;
            multiset(n.running) + multiset(n.waiting) == multiset(s.running) + multiset(s.waiting)
  {
    hide Sorted, Kept, Admitted, Reversed, HasKeys;
    var a := Admitted(s.limits, s.waiting, |s.running|, |s.running|);
    var order := Sorted(s, Candidates(s));
    var k := Kept(order, len, s.limits.maxTotal, 0);
    SplitMultiset(s.waiting, a);
    SplitMultiset(order, k);
    assert multiset(order) == multiset(s.running) + multiset(s.waiting[..a]);
    assert multiset(Reversed(order[k..])) == multiset(order[k..]);
    var n := Schedule(s, len).value;
    assert n.running == order[..k] && n.waiting == Reversed(order[k..]) + s.waiting[a..];
    assert multiset(n.waiting) == multiset(Reversed(order[k..])) + multiset(s.waiting[a..]);
    Regroup(multiset(order[..k]), multiset(order[k..]), multiset(s.waiting[a..]));
    Regroup(multiset(s.running), multiset(s.waiting[..a]), multiset(s.waiting[a..]));
  }

  lemma Regroup(a: multiset<Job>, b: multiset<Job>, c: multiset<Job>)
    ensures a + (b + c) == (a + b) + c
    ensures a + (b + c) == b + (c + a)
  {}

  /** What one round returns: the longest prefix, in arrival order, of the running jobs
      and the admitted ones whose contexts fit together; the rest of that order, reversed,
      now heads the waiting list. */
  lemma ScheduleSpec(s: Sched, len: Lengths)
    requires Schedule(s, len).Ok?
    ensures var n := Schedule(s, len).value;
            var a := Admitted(s.limits, s.waiting, |s.running|, |s.running|);
            var rest := Preempted(s, len);
            && multiset(n.running + rest) == multiset(s.running + s.waiting[..a])
            && AllKeyed(s, n.running + rest) && InOrder(s, n.running + rest)
            && n.waiting == Reversed(rest) + s.waiting[a..]
            && TotalLen(n.running, len) <= s.limits.maxTotal
            && (rest != [] ==> TotalLen(n.running + [rest[0]], len) > s.limits.maxTotal)
  {
    hide Sorted, Kept, Admitted, Reversed, HasKeys, InOrder, TotalLen;
    var n := Schedule(s, len).value;
    var order := Sorted(s, Candidates(s));
    var k := Kept(order, len, s.limits.maxTotal, 0);
    SortedOrdered(s, Candidates(s));
    KeptSpec(order, len, s.limits.maxTotal, 0);
    var rest := Preempted(s, len);
    assert n.running + rest == order;
    assert rest != [] ==> n.running + [rest[0]] == order[..k + 1];
  }

  predicate FitsAlone(s: Sched, len: Lengths, j: Job) {
    Tokens(j) <= s.limits.maxTokens && len(j.ctx) <= s.limits.maxTotal
  }

  lemma SameLength(a: seq<Job>, b: seq<Job>)
    requires multiset(a) == multiset(b)
    ensures |a| == |b|
    ensures forall i :: 0 <= i < |a| ==> a[i] in b
  {
    assert |multiset(a)| == |a| && |multiset(b)| == |b|;
    forall i | 0 <= i < |a| ensures a[i] in b { assert a[i] in multiset(a); }
  }

  /** The batch is empty exactly when there is no candidate or the oldest candidate alone
      exceeds the total length. */
  lemma EmptyBatchIff(s: Sched, len: Lengths)
    requires Schedule(s, len).Ok?
    ensures |Sorted(s, Candidates(s))| == |Candidates(s)|
    ensures Schedule(s, len).value.running == [] <==>
            Candidates(s) == [] || len(Sorted(s, Candidates(s))[0].ctx) > s.limits.maxTotal
  {
    hide Sorted, Admitted, Reversed, HasKeys;
    SameLength(Sorted(s, Candidates(s)), Candidates(s));
  }

  lemma SomeCandidate(s: Sched, len: Lengths)
    requires s.limits.maxBatch > 0 && s.running + s.waiting != []
    requires forall j :: j in s.running || j in s.waiting ==> FitsAlone(s, len, j)
    ensures Candidates(s) != []
  {
    if s.running == [] { assert s.waiting[0] in s.waiting; }
  }

  lemma OldestFits(s: Sched, len: Lengths)
    requires Schedule(s, len).Ok? && Candidates(s) != []
    requires forall j :: j in s.running || j in s.waiting ==> FitsAlone(s, len, j)
    ensures |Sorted(s, Candidates(s))| > 0 && len(Sorted(s, Candidates(s))[0].ctx) <= s.limits.maxTotal
  {
    hide Sorted, Kept, Reversed, HasKeys;
    SameLength(Sorted(s, Candidates(s)), Candidates(s));
    var first := Sorted(s, Candidates(s))[0];
    assert first in Candidates(s);
    assert first in s.running || first in s.waiting;
    assert FitsAlone(s, len, first);
  }

  /** Work conservation: if some job is present and every job fits the limits alone, the
      batch is not empty. */
  lemma NeverIdle(s: Sched, len: Lengths)
    requires Schedule(s, len).Ok? && s.limits.maxBatch > 0
    requires s.running + s.waiting != []
    requires forall j :: j in s.running || j in s.waiting ==> FitsAlone(s, len, j)
    ensures Schedule(s, len).value.running != []
  {
    hide Sorted, Kept, Reversed, HasKeys;
    EmptyBatchIff(s, len);
    SomeCandidate(s, len);
    OldestFits(s, len);
  }

  // ---------- The engine loop ----------

  /** `finish`, after an iteration in which the contexts in `done` finished: their jobs
      leave, and their keys are popped.  A missing key raises. */
  function Finish(s: Sched, todo: seq<Job>, done: set<nat>): Result<Sched>
    decreases |todo|
  {
    if todo == [] then Ok(s)
    else
      var j := todo[0];
      if j.ctx !in done then Finish(s.(running := s.running + [j]), todo[1..], done)
      else if j.ctx !in s.jobArrival || (j.endFlag && j.task !in s.taskArrival) then Raised
      else
        Finish(s.(jobArrival := s.jobArrival - {j.ctx},
                  taskArrival := if j.endFlag then s.taskArrival - {j.task} else s.taskArrival), todo[1..], done)
  }

  /** `add_job`. */
  function AddJob(s: Sched, j: Job, now: int): Sched {
    s.(waiting := s.waiting + [j],
       jobArrival := s.jobArrival[j.ctx := now],
       taskArrival := if j.task in s.taskArrival then s.taskArrival else s.taskArrival[j.task := now])
  }

  /** The contexts finished by an iteration: every Fill of the batch, and the Generate
      jobs that reached a stop condition. */
  function Done(batch: seq<Job>, stopped: set<nat>): set<nat> {
    set j | j in batch && (j.kind.Fill? || j.ctx in stopped) :: j.ctx
  }

  /** Whether the block pool has room for what a batch appends (see `EngineLink.RoomFor`). */
  type Room = seq<Job> -> bool

  /** One `engine_iter`: nothing to do without jobs; otherwise schedule, run, finish.  The
      run raises on an empty batch, which has no shared context, and on an exhausted pool. */
  function Iterate(s: Sched, len: Lengths, stopped: set<nat>, room: Room): Result<(seq<Job>, Sched)> {
    if s.running == [] && s.waiting == [] then Ok(([], s))
    else
      var n :- Schedule(s, len);
      if n.running == [] || !room(n.running) then Raised
      else
        var f :- Finish(n.(running := []), n.running, Done(n.running, stopped));
        Ok((n.running, f))
  }

  datatype Event = Arrive(j: Job, now: int) | Iteration(len: Lengths, stopped: set<nat>, room: Room)

  ghost function Jobs(s: Sched): multiset<Job> {
    multiset(s.running) + multiset(s.waiting)
  }

  /** What the serve layer guarantees of arrivals: one job per context at a time, and a
      job that ends its task is the task's only job. */
  ghost predicate MayArrive(s: Sched, j: Job) {
    forall o :: o in Jobs(s) ==> o.ctx != j.ctx && (o.task == j.task ==> !o.endFlag && !j.endFlag)
  }

  /** Every present job has its arrival keys, contexts are distinct, and a job that ends
      its task is alone in it. */
  ghost predicate JobsOk(jobs: multiset<Job>, jobArrival: map<nat, int>, taskArrival: map<nat, int>) {
    && (forall j :: j in jobs ==> j.ctx in jobArrival && j.task in taskArrival && jobs[j] == 1)
    && (forall a, b :: a in jobs && b in jobs && a != b ==>
          a.ctx != b.ctx && (a.task == b.task ==> !a.endFlag && !b.endFlag))
  }

  ghost predicate SchedInv(s: Sched) {
    && JobsOk(Jobs(s), s.jobArrival, s.taskArrival)
    && (forall j :: j in s.running ==> j.kind.Generate?)
    && |s.running| <= s.limits.maxBatch && |s.running| <= s.limits.maxTokens
  }

  lemma ArriveKeeps(s: Sched, j: Job, now: int)
    requires SchedInv(s) && MayArrive(s, j)
    ensures SchedInv(AddJob(s, j, now))
  {
    var n := AddJob(s, j, now);
    assert Jobs(n) == Jobs(s) + multiset{j};
    assert j !in Jobs(s);
  }

  lemma {:induction false} GeneratesTokens(js: seq<Job>)
    requires forall j :: j in js ==> j.kind.Generate?
    ensures TotalTokens(js) == |js|
  {
    if js != [] {
      var n := |js| - 1;
      assert js[n] in js;
      GeneratesTokens(js[..n]);
    }
  }

  lemma {:induction false} TokensOfMultiset(a: seq<Job>, b: seq<Job>)
    requires multiset(a) == multiset(b)
    ensures TotalTokens(a) == TotalTokens(b)
    decreases |a|
  {
    hide TotalTokens;
    SameLength(a, b);
    if a != [] {
      var n := |a| - 1;
      var x := a[n];
      assert x in b;
      var i :| 0 <= i < |b| && b[i] == x;
      var c := b[..i] + b[i + 1..];
      TokensWithout(a, n);
      TokensWithout(b, i);
      assert a[n + 1..] == [] && a[..n] + a[n + 1..] == a[..n];
      TokensOfMultiset(a[..n], c);
    } else {
      assert b == [];
    }
  }

  lemma TokensWithout(a: seq<Job>, i: nat)
    requires i < |a|
    ensures multiset(a[..i] + a[i + 1..]) == multiset(a) - multiset{a[i]}
    ensures TotalTokens(a) == TotalTokens(a[..i] + a[i + 1..]) + Tokens(a[i])
  {
    hide TotalTokens;
    var x, u, v := a[i], a[..i], a[i + 1..];
    assert a == u + [x] + v;
    TotalTokensConcat(u, v);
    TotalTokensConcat(u + [x], v);
    TotalTokensConcat(u, [x]);
    OneJobTokens(x);
  }

  lemma OneJobTokens(x: Job)
    ensures TotalTokens([x]) == Tokens(x)
  {
    assert [x][..0] == [];
  }

  lemma CandidatesKeyed(s: Sched)
    requires SchedInv(s)
    ensures AllKeyed(s, Candidates(s))
  {
    hide Admitted;
    var a := Admitted(s.limits, s.waiting, |s.running|, |s.running|);
    var cs := Candidates(s);
    forall i | 0 <= i < |cs| ensures HasKeys(s, cs[i]) {
      assert i < |s.running| ==> cs[i] in s.running;
      assert i >= |s.running| ==> cs[i] == s.waiting[i - |s.running|] && cs[i] in s.waiting;
      assert cs[i] in Jobs(s);
    }
  }

  /** Every batch respects the batch size, the token budget and the total length. */
  lemma BatchWithinLimits(s: Sched, len: Lengths)
    requires SchedInv(s)
    ensures Schedule(s, len).Ok?
    ensures var batch := Schedule(s, len).value.running;
            && |batch| <= s.limits.maxBatch
            && TotalTokens(batch) <= s.limits.maxTokens
            && TotalLen(batch, len) <= s.limits.maxTotal
  {
    hide Sorted, Kept, Reversed, HasKeys, TotalLen, TotalTokens, Admitted, JobsOk;
    CandidatesKeyed(s);
    ScheduleSpec(s, len);
    var n := Schedule(s, len).value;
    var rest := Preempted(s, len);
    var a := Admitted(s.limits, s.waiting, |s.running|, |s.running|);
    AdmittedSpec(s.limits, s.waiting, |s.running|, |s.running|);
    GeneratesTokens(s.running);
    TotalTokensConcat(s.running, s.waiting[..a]);
    TokensOfMultiset(n.running + rest, s.running + s.waiting[..a]);
    SameLength(n.running + rest, s.running + s.waiting[..a]);
    TotalTokensConcat(n.running, rest);
  }

  /** What is left after `finish` has gone through a list of jobs. */
  function Unfinished(js: seq<Job>, done: set<nat>): (r: seq<Job>)
    ensures |r| <= |js| && multiset(r) <= multiset(js)
    ensures forall j :: j in r <==> j in js && j.ctx !in done
    decreases |js|
  {
    if js == [] then []
    else
      assert js == [js[0]] + js[1..];
      (if js[0].ctx in done then [] else [js[0]]) + Unfinished(js[1..], done)
  }

  /** `finish` keeps the unfinished jobs in order, and never misses a key. */
  lemma {:induction false} FinishKeeps(s: Sched, todo: seq<Job>, done: set<nat>, others: multiset<Job>)
    requires JobsOk(multiset(todo) + others, s.jobArrival, s.taskArrival)
    ensures Finish(s, todo, done).Ok?
    ensures var n := Finish(s, todo, done).value;
            && n.running == s.running + Unfinished(todo, done)
            && n.waiting == s.waiting && n.limits == s.limits
            && JobsOk(multiset(Unfinished(todo, done)) + others, n.jobArrival, n.taskArrival)
    decreases |todo|
  {
    hide JobsOk, Unfinished;
    UnfinishedStep(todo, done);
    if todo == [] {
      assert s.running + [] == s.running;
    } else {
      var j := todo[0];
      var m := multiset(todo[1..]);
      assert todo == [j] + todo[1..];
      Regroup(multiset{j}, m, others);
      assert multiset(todo) == multiset{j} + m;
      KeysOf(multiset(todo) + others, s.jobArrival, s.taskArrival, j);
      if j.ctx !in done {
        var s1 := s.(running := s.running + [j]);
        FinishKeeps(s1, todo[1..], done, others + multiset{j});
        assert s.running + ([j] + Unfinished(todo[1..], done)) == s1.running + Unfinished(todo[1..], done);
        Regroup(multiset{j}, multiset(Unfinished(todo[1..], done)), others);
      } else {
        var s1 := s.(jobArrival := s.jobArrival - {j.ctx},
                     taskArrival := if j.endFlag then s.taskArrival - {j.task} else s.taskArrival);
        PopKeeps(j, m + others, s.jobArrival, s.taskArrival);
        FinishKeeps(s1, todo[1..], done, others);
      }
    }
  }

  lemma UnfinishedStep(todo: seq<Job>, done: set<nat>)
    ensures todo == [] ==> Unfinished(todo, done) == []
    ensures todo != [] && todo[0].ctx in done ==> Unfinished(todo, done) == Unfinished(todo[1..], done)
    ensures todo != [] && todo[0].ctx !in done ==>
              && Unfinished(todo, done) == [todo[0]] + Unfinished(todo[1..], done)
              && multiset(Unfinished(todo, done)) == multiset{todo[0]} + multiset(Unfinished(todo[1..], done))
  {
    if todo != [] && todo[0].ctx in done {
      assert [] + Unfinished(todo[1..], done) == Unfinished(todo[1..], done);
    }
  }

  lemma KeysOf(jobs: multiset<Job>, jobArrival: map<nat, int>, taskArrival: map<nat, int>, j: Job)
    requires JobsOk(jobs, jobArrival, taskArrival) && j in jobs
    ensures j.ctx in jobArrival && j.task in taskArrival
  {}

  lemma PopKeeps(j: Job, rest: multiset<Job>, jobArrival: map<nat, int>, taskArrival: map<nat, int>)
    requires JobsOk(multiset{j} + rest, jobArrival, taskArrival)
    ensures JobsOk(rest, jobArrival - {j.ctx}, if j.endFlag then taskArrival - {j.task} else taskArrival)
  {
    var all := multiset{j} + rest;
    assert j in all && all[j] == 1 && j !in rest;
    forall o | o in rest ensures o in all && o != j && o.ctx != j.ctx && all[o] == rest[o] {}
  }

  /** No batch can be formed: nothing runs and the first waiting job is not admitted, or the
      oldest candidate alone exceeds the total length. */
  ghost predicate Stuck(s: Sched, len: Lengths)
    requires AllKeyed(s, Candidates(s))
  {
    || (s.running == [] && s.waiting != [] && (s.limits.maxBatch == 0 || Tokens(s.waiting[0]) > s.limits.maxTokens))
    || (Candidates(s) != [] && len(Oldest(s).ctx) > s.limits.maxTotal)
  }

  /** The first candidate in the order of arrival. */
  ghost function Oldest(s: Sched): Job
    requires AllKeyed(s, Candidates(s)) && Candidates(s) != []
  {
    SameLength(Sorted(s, Candidates(s)), Candidates(s));
    Sorted(s, Candidates(s))[0]
  }

  /** With a job present, the batch is empty exactly when the scheduler is stuck. */
  lemma EmptyBatchIffStuck(s: Sched, len: Lengths)
    requires Schedule(s, len).Ok? && (s.running != [] || s.waiting != [])
    ensures Schedule(s, len).value.running == [] <==> Stuck(s, len)
  {
    hide Sorted, Kept, Reversed, HasKeys;
    EmptyBatchIff(s, len);
    if s.running == [] { assert Candidates(s) == [] + s.waiting[..Admitted(s.limits, s.waiting, 0, 0)]; }
  }

  /** An engine iteration raises if and only if there is a job but no batch can be formed, or
      the pool has no room for the batch.  Otherwise it keeps every key of every present job
      and leaves only Generate jobs running; with a job present its batch is not empty. */
  lemma IterateKeeps(s: Sched, len: Lengths, stopped: set<nat>, room: Room)
    requires SchedInv(s)
    ensures AllKeyed(s, Candidates(s)) && Schedule(s, len).Ok?
    ensures Iterate(s, len, stopped, room).Raised? <==>
              (s.running != [] || s.waiting != []) && (Stuck(s, len) || !room(Schedule(s, len).value.running))
    ensures Iterate(s, len, stopped, room).Ok? ==>
              var (batch, n) := Iterate(s, len, stopped, room).value;
              && SchedInv(n) && n.limits == s.limits && WithinLimits(s.limits, batch, len)
              && (s.running != [] || s.waiting != [] ==> batch != [])
              && n.running == Unfinished(batch, Done(batch, stopped))
  {
    hide Sorted, Kept, Reversed, HasKeys, Stuck, Admitted, Finish, SchedInv;
    BatchWithinLimits(s, len);
    if s.running != [] || s.waiting != [] {
      EmptyBatchIffStuck(s, len);
      RunKeeps(s, len, stopped);
    }
  }

  ghost predicate WithinLimits(limits: Limits, batch: seq<Job>, len: Lengths) {
    |batch| <= limits.maxBatch && TotalTokens(batch) <= limits.maxTokens && TotalLen(batch, len) <= limits.maxTotal
  }

  /** Scheduling and finishing, whatever the run in between finished. */
  lemma RunKeeps(s: Sched, len: Lengths, stopped: set<nat>)
    requires SchedInv(s) && Schedule(s, len).Ok?
    ensures var n := Schedule(s, len).value;
            var r := Finish(n.(running := []), n.running, Done(n.running, stopped));
            && r.Ok? && SchedInv(r.value) && r.value.limits == s.limits
            && r.value.running == Unfinished(n.running, Done(n.running, stopped))
  {
    hide Sorted, Kept, Reversed, HasKeys, TotalLen, TotalTokens, Admitted, JobsOk, Finish;
    BatchWithinLimits(s, len);
    ScheduleConserves(s, len);
    var n := Schedule(s, len).value;
    var done := Done(n.running, stopped);
    assert multiset(n.running) + multiset(n.waiting) == Jobs(s);
    assert n.jobArrival == s.jobArrival && n.taskArrival == s.taskArrival;
    FinishKeeps(n.(running := []), n.running, done, multiset(n.waiting));
    var f := Finish(n.(running := []), n.running, done).value;
    var left := Unfinished(n.running, done);
    assert f.running == left;
    assert Jobs(f) == multiset(left) + multiset(n.waiting);
    forall j | j in left ensures j.kind.Generate? {
      assert j in n.running && j.ctx !in done;
      assert j.kind.Fill? ==> j.ctx in done;
    }
    GeneratesTokens(left);
    UnfinishedTokens(n.running, done);
  }

  lemma {:induction false} UnfinishedTokens(js: seq<Job>, done: set<nat>)
    ensures TotalTokens(Unfinished(js, done)) <= TotalTokens(js)
    decreases |js|
  {
    if js != [] {
      UnfinishedTokens(js[1..], done);
      assert js == [js[0]] + js[1..];
      TotalTokensConcat([js[0]], js[1..]);
      TotalTokensConcat(if js[0].ctx in done then [] else [js[0]], Unfinished(js[1..], done));
    }
  }

  // ---------- Whole runs ----------

  ghost predicate Allowed(s: Sched, e: Event) {
    e.Arrive? ==> MayArrive(s, e.j)
  }

  function Handle(s: Sched, e: Event): Result<Sched> {
    match e
    case Arrive(j, now) => Ok(AddJob(s, j, now))
    case Iteration(len, stopped, room) =>
      var r :- Iterate(s, len, stopped, room);
      Ok(r.1)
  }

  ghost predicate EngineRuns(s0: Sched, events: seq<Event>, s: Sched)
    decreases |events|
  {
    if events == [] then s == s0
    else
      var k := |events| - 1;
      exists r :: EngineRuns(s0, events[..k], r) && Allowed(r, events[k]) && Handle(r, events[k]) == Ok(s)
  }

  function Idle(limits: Limits): Sched {
    Sched(limits, [], [], map[], map[])
  }

  /** Over every run of arrivals and iterations, with context lengths that change in any
      way: only Generate jobs are running when `schedule` is entered, no sort and no removal
      misses a key, the next iteration raises exactly when it is stuck or the pool has no
      room, and every batch respects all three limits. */
  lemma {:induction false} EngineLoopSafe(limits: Limits, events: seq<Event>, s: Sched)
    requires EngineRuns(Idle(limits), events, s)
    ensures SchedInv(s) && s.limits == limits && AllKeyed(s, Candidates(s))
    ensures forall len :: Schedule(s, len).Ok?
    ensures forall len, stopped, room :: Iterate(s, len, stopped, room).Raised? <==>
              (s.running != [] || s.waiting != []) && (Stuck(s, len) || !room(Schedule(s, len).value.running))
    ensures forall len, stopped, room :: Iterate(s, len, stopped, room).Ok? ==>
              WithinLimits(limits, Iterate(s, len, stopped, room).value.0, len)
    decreases |events|
  {
    hide SchedInv, Iterate, AddJob, WithinLimits, Stuck, Candidates, Schedule;
    if events == [] {
      IdleInv(limits);
    } else {
      var k := |events| - 1;
      var r :| EngineRuns(Idle(limits), events[..k], r) && Allowed(r, events[k]) && Handle(r, events[k]) == Ok(s);
      EngineLoopSafe(limits, events[..k], r);
      match events[k]
      case Arrive(j, now) => ArriveKeeps(r, j, now); ArriveLimits(r, j, now);
      case Iteration(len, stopped, room) => IterateKeeps(r, len, stopped, room);
    }
    IterateKeeps(s, _ => 0, {}, _ => true);
    forall len ensures Schedule(s, len).Ok? { BatchWithinLimits(s, len); }
    forall len, stopped, room
      ensures AllKeyed(s, Candidates(s)) && Schedule(s, len).Ok?
      ensures Iterate(s, len, stopped, room).Raised? <==>
                (s.running != [] || s.waiting != []) && (Stuck(s, len) || !room(Schedule(s, len).value.running))
      ensures Iterate(s, len, stopped, room).Ok? ==> WithinLimits(limits, Iterate(s, len, stopped, room).value.0, len)
    {
      IterateKeeps(s, len, stopped, room);
    }
  }

  /** So jobs that fit the limits alone never stop the loop, as long as the pool has room. */
  lemma SmallJobsNeverStop(s: Sched, len: Lengths, stopped: set<nat>, room: Room)
    requires SchedInv(s) && s.limits.maxBatch > 0
    requires forall j :: j in s.running || j in s.waiting ==> FitsAlone(s, len, j)
    requires forall batch :: room(batch)
    ensures Iterate(s, len, stopped, room).Ok?
  {
    hide SchedInv;
    IterateKeeps(s, len, stopped, room);
    if s.running != [] || s.waiting != [] {
      NeverIdle(s, len);
      EmptyBatchIffStuck(s, len);
    }
  }

  /** A job that does stop it: a Fill with more tokens than a batch may have, alone in the
      queue of a fresh engine.  Every iteration from then on raises. */
  lemma LongFillStopsEngine(limits: Limits, j: Job, now: int, len: Lengths, stopped: set<nat>, room: Room)
      returns (s: Sched)
    requires Tokens(j) > limits.maxTokens
    ensures EngineRuns(Idle(limits), [Arrive(j, now)], s) && Iterate(s, len, stopped, room) == Raised
  {
    var s0 := Idle(limits);
    s := AddJob(s0, j, now);
    var events := [Arrive(j, now)];
    assert events[..|events| - 1] == [] && events[|events| - 1] == Arrive(j, now);
    assert EngineRuns(s0, events[..|events| - 1], s0) && Allowed(s0, Arrive(j, now));
    EngineLoopSafe(limits, events, s);
    IterateKeeps(s, len, stopped, room);
  }

  lemma ArriveLimits(s: Sched, j: Job, now: int)
    ensures AddJob(s, j, now).limits == s.limits
  {}

  lemma IdleInv(limits: Limits)
    ensures SchedInv(Idle(limits))
  {}

  // ---------- What `end_flag` breaks ----------

  /** The job is finished and takes its task's key with it. */
  predicate Ends(j: Job, done: set<nat>) {
    j.ctx in done && j.endFlag
  }

  ghost function Ended(js: seq<Job>, done: set<nat>): set<nat> {
    set j | j in js && Ends(j, done) :: j.task
  }

  ghost predicate EndsTwice(js: seq<Job>, done: set<nat>) {
    exists i, k :: 0 <= i < k < |js| && Ends(js[i], done) && Ends(js[k], done) && js[i].task == js[k].task
  }

  ghost predicate DistinctContexts(js: seq<Job>) {
    forall i, k :: 0 <= i < k < |js| ==> js[i].ctx != js[k].ctx
  }

  ghost function Finished(js: seq<Job>, done: set<nat>): set<nat> {
    set j | j in js && j.ctx in done :: j.ctx
  }

  lemma FirstEnds(j: Job, rest: seq<Job>, done: set<nat>)
    ensures EndsTwice([j] + rest, done) <==> EndsTwice(rest, done) || (Ends(j, done) && j.task in Ended(rest, done))
    ensures Ended([j] + rest, done) == Ended(rest, done) + if Ends(j, done) then {j.task} else {}
    ensures Finished([j] + rest, done) == Finished(rest, done) + if j.ctx in done then {j.ctx} else {}
  {
    var js := [j] + rest;
    if i, k :| 0 <= i < k < |js| && Ends(js[i], done) && Ends(js[k], done) && js[i].task == js[k].task {
      assert i > 0 ==> Ends(rest[i - 1], done) && Ends(rest[k - 1], done) && rest[i - 1].task == rest[k - 1].task;
      assert js[k] == rest[k - 1] && rest[k - 1] in rest;
    }
    if i, k :| 0 <= i < k < |rest| && Ends(rest[i], done) && Ends(rest[k], done) && rest[i].task == rest[k].task {
      assert Ends(js[i + 1], done) && Ends(js[k + 1], done) && js[i + 1].task == js[k + 1].task;
    }
    if Ends(j, done) && j.task in Ended(rest, done) {
      var k :| 0 <= k < |rest| && Ends(rest[k], done) && rest[k].task == j.task;
      assert Ends(js[0], done) && Ends(js[k + 1], done) && js[0].task == js[k + 1].task;
    }
  }

  /** The state after one finished job. */
  function Popped(s: Sched, j: Job): Sched {
    s.(jobArrival := s.jobArrival - {j.ctx},
       taskArrival := if j.endFlag then s.taskArrival - {j.task} else s.taskArrival)
  }

  /** When `finish` raises, whatever task keys are missing already. */
  lemma {:induction false} FinishRaises(s: Sched, todo: seq<Job>, done: set<nat>)
    requires DistinctContexts(todo) && forall i :: 0 <= i < |todo| ==> todo[i].ctx in s.jobArrival
    ensures Finish(s, todo, done).Raised? <==> EndsTwice(todo, done) || !(Ended(todo, done) <= s.taskArrival.Keys)
    decreases |todo|
  {
    hide EndsTwice, Ended, Finished, DistinctContexts;
    if todo == [] {
      NothingEnds(done);
    } else {
      var j, rest := todo[0], todo[1..];
      assert todo == [j] + rest;
      FirstEnds(j, rest, done);
      SplitDistinct([j], rest);
      if j.ctx !in done {
        FinishRaises(s.(running := s.running + [j]), rest, done);
      } else if !j.endFlag || j.task in s.taskArrival {
        FinishRaises(Popped(s, j), rest, done);
      }
    }
  }

  /** The state `finish` leaves. */
  lemma {:induction false} FinishLeaves(s: Sched, todo: seq<Job>, done: set<nat>)
    requires Finish(s, todo, done).Ok?
    ensures var n := Finish(s, todo, done).value;
            && n.running == s.running + Unfinished(todo, done) && n.waiting == s.waiting && n.limits == s.limits
            && n.jobArrival.Keys == s.jobArrival.Keys - Finished(todo, done)
            && n.taskArrival.Keys == s.taskArrival.Keys - Ended(todo, done)
            && (forall c :: c in n.jobArrival ==> n.jobArrival[c] == s.jobArrival[c])
            && (forall t :: t in n.taskArrival ==> n.taskArrival[t] == s.taskArrival[t])
    decreases |todo|
  {
    hide EndsTwice, Ended, Finished, Unfinished;
    UnfinishedStep(todo, done);
    if todo == [] {
      NothingEnds(done);
      assert s.running + [] == s.running;
    } else {
      var j, rest := todo[0], todo[1..];
      assert todo == [j] + rest;
      FirstEnds(j, rest, done);
      if j.ctx !in done {
        var s1 := s.(running := s.running + [j]);
        FinishLeaves(s1, rest, done);
        assert s.running + ([j] + Unfinished(rest, done)) == s1.running + Unfinished(rest, done);
      } else {
        FinishLeaves(Popped(s, j), rest, done);
      }
    }
  }

  lemma NothingEnds(done: set<nat>)
    ensures !EndsTwice([], done) && Ended([], done) == {} && Finished([], done) == {}
  {}

  /** `finish` raises if and only if two finished jobs both end the same task. */
  lemma FinishRaisesIff(s: Sched, done: set<nat>)
    requires AllKeyed(s, s.running) && DistinctContexts(s.running)
    ensures Finish(s.(running := []), s.running, done).Raised? <==> EndsTwice(s.running, done)
  {
    FinishRaises(s.(running := []), s.running, done);
    forall t | t in Ended(s.running, done) ensures t in s.taskArrival {
      var i :| 0 <= i < |s.running| && s.running[i].task == t;
      assert HasKeys(s, s.running[i]);
    }
  }

  /** The rule about `end_flag` is needed: the round after a `finish` raises if and only if
      one of its candidates belongs to a task that a finished job has ended. */
  lemma EndFlagClash(s: Sched, done: set<nat>, len: Lengths)
    requires AllKeyed(s, s.running + s.waiting) && DistinctContexts(s.running + s.waiting)
    requires Finish(s.(running := []), s.running, done).Ok?
    ensures var n := Finish(s.(running := []), s.running, done).value;
            Schedule(n, len).Raised? <==> exists o :: o in Candidates(n) && o.task in Ended(s.running, done)
  {
    hide Ended, Finished, Unfinished, Admitted, Sorted, Kept, Reversed, Finish;
    SplitDistinct(s.running, s.waiting);
    FinishLeaves(s.(running := []), s.running, done);
    var n := Finish(s.(running := []), s.running, done).value;
    assert [] + Unfinished(s.running, done) == Unfinished(s.running, done);
    forall o | o in Candidates(n) ensures HasKeys(n, o) <==> o.task !in Ended(s.running, done) {
      CandidateKeys(s, n, done, o);
    }
    var cs := Candidates(n);
    if exists o :: o in cs && o.task in Ended(s.running, done) {
      var o :| o in cs && o.task in Ended(s.running, done);
      var i :| 0 <= i < |cs| && cs[i] == o;
      assert !HasKeys(n, cs[i]);
    } else {
      forall i | 0 <= i < |cs| ensures HasKeys(n, cs[i]) { assert cs[i] in cs; }
    }
  }

  lemma SplitDistinct(a: seq<Job>, b: seq<Job>)
    requires DistinctContexts(a + b)
    ensures DistinctContexts(a) && DistinctContexts(b)
    ensures forall i, k :: 0 <= i < |a| && 0 <= k < |b| ==> a[i].ctx != b[k].ctx
  {
    forall i, k | 0 <= i < k < |a| ensures a[i].ctx != a[k].ctx { assert (a + b)[i] == a[i] && (a + b)[k] == a[k]; }
    forall i, k | 0 <= i < k < |b| ensures b[i].ctx != b[k].ctx {
      assert (a + b)[|a| + i] == b[i] && (a + b)[|a| + k] == b[k];
    }
    forall i, k | 0 <= i < |a| && 0 <= k < |b| ensures a[i].ctx != b[k].ctx {
      assert (a + b)[i] == a[i] && (a + b)[|a| + k] == b[k];
    }
  }

  /** A candidate keeps its own key, and its task's key unless the task was ended. */
  lemma CandidateKeys(s: Sched, n: Sched, done: set<nat>, o: Job)
    requires AllKeyed(s, s.running + s.waiting) && o in Candidates(n)
    requires forall i, k :: 0 <= i < |s.running| && 0 <= k < |s.waiting| ==> s.running[i].ctx != s.waiting[k].ctx
    requires n.running == Unfinished(s.running, done) && n.waiting == s.waiting
    requires n.jobArrival.Keys == s.jobArrival.Keys - Finished(s.running, done)
    requires n.taskArrival.Keys == s.taskArrival.Keys - Ended(s.running, done)
    ensures HasKeys(n, o) <==> o.task !in Ended(s.running, done)
  {
    hide Ended, Unfinished, Admitted;
    var all := s.running + s.waiting;
    assert o in n.running || o in n.waiting;
    assert o in all by { assert o in s.running || o in s.waiting; }
    var i :| 0 <= i < |all| && all[i] == o;
    assert HasKeys(s, all[i]);
    assert o.ctx !in Finished(s.running, done);
  }

  /** An input that does it: two jobs of one task run, the one that ends it finishes. */
  lemma EndFlagExample(s: Sched, j: Job, o: Job, len: Lengths)
    requires j.endFlag && o.task == j.task && j.ctx != o.ctx
    requires j.ctx in s.jobArrival && j.task in s.taskArrival && s.running == []
    ensures var n := Finish(s, [j, o], {j.ctx});
            n.Ok? && n.value.running == [o] && Schedule(n.value, len) == Raised
  {
    hide Admitted, Sorted, Kept, Reversed;
    var s1 := s.(jobArrival := s.jobArrival - {j.ctx}, taskArrival := s.taskArrival - {j.task});
    assert [j, o][1..] == [o] && [o][1..] == [];
    assert s1.running + [o] == [o];
    assert Finish(s1, [o], {j.ctx}) == Finish(s1.(running := [o]), [], {j.ctx});
    var n := Finish(s, [j, o], {j.ctx}).value;
    assert Candidates(n)[0] == o;
  }
}
