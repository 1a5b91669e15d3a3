/** The cluster scheduler (`parrot/serve/scheduler/global_scheduler.py`) and the serve
    layer's accounting of what each engine has been given
    (`parrot/serve/backend_repr/engine.py`). */
module ClusterScheduling {
  import opened Wrappers

  datatype ModelType = TokenId | Text

  /** A task in the queue: its latency bound (`tasks_num_upperbound`), token count per
      tokenizer, model wishes, chain groups, first variable and depth. */
  datatype Task = Task(
    id: nat, bound: nat, tokens: map<string, nat>, models: seq<string>, modelType: ModelType,
    groups: set<nat>, firstVar: string, depth: int)

  /** An engine and its serve-layer runtime info; `residents` records the tasks that were
      dispatched to it and not freed yet. */
  datatype Engine = Engine(
    model: string, modelType: ModelType, tokenizer: string, tasksCapacity: int, tokensCapacity: int,
    numTasks: int, tokensNum: int, bounds: map<nat, nat>, residents: seq<Task>)

  datatype Config = Config(appFifo: bool, graphGroup: bool, ctxGroup: bool, maxQueue: nat)

  datatype Cluster = Cluster(queue: seq<Task>, live: seq<nat>, engines: map<nat, Engine>, scheduled: set<nat>)

  /** `get_token_nums` for the engine's tokenizer; 0 on engines that take text. */
  function TokensOn(en: Engine, t: Task): nat {
    if en.modelType == TokenId && en.tokenizer in t.tokens then t.tokens[en.tokenizer] else 0
  }

  function TokenSum(en: Engine, ts: seq<Task>): nat {
    if ts == [] then 0 else TokenSum(en, ts[..|ts| - 1]) + TokensOn(en, ts[|ts| - 1])
  }

  // ---------- Availability ----------

  /** `check_engine_available`.  The minimum over a group or over the resident bounds is
      compared member by member. */
  predicate Available(en: Engine, ts: seq<Task>)
    requires ts != []
  {
    && ts[0].modelType == en.modelType
    && (ts[0].models == [] || en.model in ts[0].models)
    && 1 + en.numTasks <= 999999999
    && (forall i :: 0 <= i < |ts| ==> 1 + en.numTasks <= ts[i].bound)
    && |ts| + en.numTasks <= 9999999999
    && (forall t :: t in en.bounds ==> |ts| + en.numTasks <= en.bounds[t])
    && |ts| <= en.tasksCapacity - en.numTasks
    && (en.modelType == TokenId ==> TokenSum(en, ts) <= en.tokensCapacity - en.tokensNum)
  }

  /** `_get_engine_list`. */
  function EngineList(engines: map<nat, Engine>, live: seq<nat>, ts: seq<Task>): (r: seq<nat>)
    requires ts != []
    ensures forall i :: 0 <= i < |r| ==> r[i] in engines && Available(engines[r[i]], ts)
  {
    if live == [] then []
    else
      var rest := EngineList(engines, live[1..], ts);
      if live[0] in engines && Available(engines[live[0]], ts) then [live[0]] + rest else rest
  }

  predicate Usable(engines: map<nat, Engine>, live: seq<nat>, ts: seq<Task>, i: nat)
    requires ts != [] && i < |live|
  {
    live[i] in engines && Available(engines[live[i]], ts)
  }

  /** The list is exactly the available live engines, in their order: `at` gives for each
      entry its position among the live engines. */
  lemma {:induction false} EngineListExact(engines: map<nat, Engine>, live: seq<nat>, ts: seq<Task>)
      returns (at: seq<nat>)
    requires ts != []
    ensures |at| == |EngineList(engines, live, ts)|
    ensures forall k :: 0 <= k < |at| ==> at[k] < |live| && live[at[k]] == EngineList(engines, live, ts)[k]
    ensures forall k, l :: 0 <= k < l < |at| ==> at[k] < at[l]
    ensures forall i :: 0 <= i < |live| ==> (Usable(engines, live, ts, i) <==> i in at)
    decreases |live|
  {
    hide Available, EngineList, Usable;
    if live == [] {
      at := [];
      EngineListStep(engines, live, ts);
    } else {
      var rest := EngineListExact(engines, live[1..], ts);
      var more := Shifted(rest);
      EngineListStep(engines, live, ts);
      ShiftedHas(rest, 0);
      forall i | 0 < i < |live| ensures Usable(engines, live, ts, i) <==> i in more {
        ShiftedHas(rest, i);
        UsableShifts(engines, live, ts, i);
      }
      if Usable(engines, live, ts, 0) {
        at := [0] + more;
        assert forall i :: i in at <==> i == 0 || i in more;
        forall k | 0 <= k < |at| ensures at[k] < |live| && live[at[k]] == EngineList(engines, live, ts)[k] {
          assert k > 0 ==> at[k] == more[k - 1] == rest[k - 1] + 1 && live[at[k]] == live[1..][rest[k - 1]];
        }
      } else {
        at := more;
        forall k | 0 <= k < |at| ensures at[k] < |live| && live[at[k]] == EngineList(engines, live, ts)[k] {
          assert at[k] == rest[k] + 1 && live[at[k]] == live[1..][rest[k]];
        }
      }
    }
  }

  lemma EngineListStep(engines: map<nat, Engine>, live: seq<nat>, ts: seq<Task>)
    requires ts != []
    ensures live == [] ==> EngineList(engines, live, ts) == []
    ensures live != [] ==>
              EngineList(engines, live, ts) ==
              if Usable(engines, live, ts, 0) then [live[0]] + EngineList(engines, live[1..], ts)
              else EngineList(engines, live[1..], ts)
  {}

  lemma UsableShifts(engines: map<nat, Engine>, live: seq<nat>, ts: seq<Task>, i: nat)
    requires ts != [] && 0 < i < |live|
    ensures Usable(engines, live[1..], ts, i - 1) <==> Usable(engines, live, ts, i)
  {}

  function Shifted(at: seq<nat>): seq<nat> {
    seq(|at|, k requires 0 <= k < |at| => at[k] + 1)
  }

  lemma ShiftedHas(at: seq<nat>, i: nat)
    ensures i in Shifted(at) <==> i > 0 && i - 1 in at
  {
    if i > 0 && i - 1 in at {
      var k :| 0 <= k < |at| && at[k] == i - 1;
      assert Shifted(at)[k] == i;
    }
  }

  // ---------- Dispatch and free ----------

  /** `schedule_to`: the engine's counters take in one task. */
  function AddTask(en: Engine, t: Task): Engine {
    en.(numTasks := en.numTasks + 1, bounds := en.bounds[t.id := t.bound],
        tokensNum := en.tokensNum + TokensOn(en, t), residents := en.residents + [t])
  }

  function AddTasks(en: Engine, ts: seq<Task>): Engine {
    if ts == [] then en else AddTask(AddTasks(en, ts[..|ts| - 1]), ts[|ts| - 1])
  }

  function Ids(ts: seq<Task>): set<nat> {
    set t | t in ts :: t.id
  }

  function Dispatch(c: Cluster, e: nat, ts: seq<Task>): Cluster
    requires e in c.engines
  {
    c.(engines := c.engines[e := AddTasks(c.engines[e], ts)], scheduled := c.scheduled + Ids(ts))
  }

  function Remove(ts: seq<Task>, t: Task): seq<Task> {
    if ts == [] then [] else if ts[0] == t then ts[1..] else [ts[0]] + Remove(ts[1..], t)
  }

  /** `leave_scheduled`: raises when the task is not on the engine. */
  function RemoveTask(en: Engine, t: Task): Result<Engine> {
    if t.id !in en.bounds then Raised
    else Ok(en.(numTasks := en.numTasks - 1, bounds := en.bounds - {t.id},
                tokensNum := en.tokensNum - TokensOn(en, t), residents := Remove(en.residents, t)))
  }

  // ---------- Grouping ----------

  /** The grouping loop of `schedule` from queue position j on. */
  function GroupFrom(q: seq<Task>, task: Task, j: nat, cur: seq<Task>, common: set<nat>, graph: bool,
                     ctx: bool): seq<Task>
    requires j <= |q|
    decreases |q| - j
  {
    if j == |q| then cur
    else
      var shared := common * q[j].groups;
      if graph && shared != {} then
        GroupFrom(q, task, j + 1, cur + [q[j]], shared, graph, false)
      else if ctx && task.firstVar == q[j].firstVar then
        GroupFrom(q, task, j + 1, cur + [q[j]], common, false, ctx)
      else
        GroupFrom(q, task, j + 1, cur, common, graph, ctx)
  }

  function Group(cfg: Config, q: seq<Task>, i: nat): seq<Task>
    requires i < |q|
  {
    if cfg.graphGroup || cfg.ctxGroup
    then GroupFrom(q, q[i], i + 1, [q[i]], q[i].groups, cfg.graphGroup, cfg.ctxGroup)
    else [q[i]]
  }

  /** Whether two tasks belong together under the configured grouping. */
  predicate Together(cfg: Config, a: Task, b: Task) {
    (cfg.graphGroup && a.groups * b.groups != {}) || (cfg.ctxGroup && a.firstVar == b.firstVar)
  }

  // ---------- A scheduling round ----------

  function ById(ts: seq<Task>, scheduled: set<nat>, keep: bool): (r: seq<Task>)
    ensures forall t :: t in r <==> t in ts && (t.id in scheduled) == keep
  {
    if ts == [] then []
    else
      assert ts == ts[..|ts| - 1] + [ts[|ts| - 1]];
      ById(ts[..|ts| - 1], scheduled, keep) + (if (ts[|ts| - 1].id in scheduled) == keep then [ts[|ts| - 1]] else [])
  }

  /** The loop over the queue.  Which of the available engines is the best one is a
      heuristic; here it is any of them, picked by `choice`. */
  function ScheduleFrom(cfg: Config, c: Cluster, q: seq<Task>, i: nat, choice: nat -> nat): Cluster
    requires i <= |q|
    decreases |q| - i
  {
    if i == |q| then c
    else if q[i].id in c.scheduled then ScheduleFrom(cfg, c, q, i + 1, choice)
    else
      var group := Group(cfg, q, i);
      if group == [] then ScheduleFrom(cfg, c, q, i + 1, choice)
      else
        var avail := EngineList(c.engines, c.live, group);
        if avail == [] then ScheduleFrom(cfg, c, q, i + 1, choice)
        else ScheduleFrom(cfg, Dispatch(c, avail[choice(i) % |avail|], group), q, i + 1, choice)
  }

  function InsertByDepth(q: seq<Task>, t: Task): (r: seq<Task>)
    ensures multiset(r) == multiset(q) + multiset{t}
  {
    if q == [] || q[|q| - 1].depth >= t.depth then q + [t]
    else
      assert q == q[..|q| - 1] + [q[|q| - 1]];
      InsertByDepth(q[..|q| - 1], t) + [q[|q| - 1]]
  }

  /** `task_queue.sort(key=-depth)`: stable. */
  function SortByDepth(q: seq<Task>): (r: seq<Task>)
    ensures multiset(r) == multiset(q)
  {
    if q == [] then []
    else
      assert q == q[..|q| - 1] + [q[|q| - 1]];
      InsertByDepth(SortByDepth(q[..|q| - 1]), q[|q| - 1])
  }

  function Ordered(cfg: Config, q: seq<Task>): seq<Task> {
    if cfg.appFifo then SortByDepth(q) else q
  }

  /** `schedule`. */
  function Schedule(cfg: Config, c: Cluster, choice: nat -> nat): Cluster {
    var q := Ordered(cfg, c.queue);
    var n := ScheduleFrom(cfg, c, q, 0, choice);
    n.(queue := ById(q, n.scheduled, false))
  }

  /** `submit_task`: rejects when the queue is full. */
  function Submit(cfg: Config, c: Cluster, t: Task): Result<Cluster> {
    if |c.queue| >= cfg.maxQueue then Raised else Ok(c.(queue := c.queue + [t]))
  }

  /** `free_task` of a task that was dispatched to engine e. */
  function FreeTask(c: Cluster, e: nat, t: Task): Result<Cluster> {
    if e !in c.engines then Raised
    else
      var en :- RemoveTask(c.engines[e], t);
      Ok(c.(engines := c.engines[e := en]))
  }

  // ---------- Accounting ----------

  ghost predicate DistinctIds(ts: seq<Task>) {
    forall i, j :: 0 <= i < j < |ts| ==> ts[i].id != ts[j].id
  }

  /** The counters of an engine are exact sums over its residents, and within capacity. */
  ghost predicate EngineOk(en: Engine) {
    && DistinctIds(en.residents)
    && en.numTasks == |en.residents| <= en.tasksCapacity
    && en.tokensNum == TokenSum(en, en.residents) <= en.tokensCapacity
    && BoundsOk(en.bounds, en.residents)
  }

  ghost predicate EnginesInv(c: Cluster) {
    && (forall e :: e in c.engines ==> EngineOk(c.engines[e]) && Ids(c.engines[e].residents) <= c.scheduled)
    && (forall e, f :: e in c.engines && f in c.engines && e != f ==>
          Ids(c.engines[e].residents) !! Ids(c.engines[f].residents))
  }

  ghost predicate ClusterInv(c: Cluster) {
    && EnginesInv(c)
    && DistinctIds(c.queue) && Ids(c.queue) !! c.scheduled
  }

  lemma {:induction false} TokenSumConcat(en: Engine, a: seq<Task>, b: seq<Task>)
    ensures TokenSum(en, a + b) == TokenSum(en, a) + TokenSum(en, b)
    decreases |b|
  {
    if b == [] {
      assert a + b == a;
    } else {
      var n := |b| - 1;
      TokenSumConcat(en, a, b[..n]);
      assert (a + b)[..|a + b| - 1] == a + b[..n];
    }
  }

  lemma {:induction false} TokenSumSame(en: Engine, en': Engine, ts: seq<Task>)
    requires en.modelType == en'.modelType && en.tokenizer == en'.tokenizer
    ensures TokenSum(en, ts) == TokenSum(en', ts)
  {
    if ts != [] { TokenSumSame(en, en', ts[..|ts| - 1]); }
  }

  /** What dispatching a whole group does to the counters. */
  lemma {:induction false} AddTasksCounters(en: Engine, ts: seq<Task>)
    ensures var n := AddTasks(en, ts);
            && n.model == en.model && n.modelType == en.modelType && n.tokenizer == en.tokenizer
            && n.tasksCapacity == en.tasksCapacity && n.tokensCapacity == en.tokensCapacity
            && n.numTasks == en.numTasks + |ts|
            && n.tokensNum == en.tokensNum + TokenSum(en, ts)
            && n.residents == en.residents + ts
    decreases |ts|
  {
    if ts != [] {
      var k := |ts| - 1;
      AddTasksCounters(en, ts[..k]);
      assert en.residents + ts == en.residents + ts[..k] + [ts[k]];
    }
  }

  lemma IdsSnoc(ts: seq<Task>, t: Task)
    ensures Ids(ts + [t]) == Ids(ts) + {t.id}
  {}

  lemma {:induction false} AddTasksBounds(en: Engine, ts: seq<Task>)
    ensures var n := AddTasks(en, ts);
            && n.bounds.Keys == en.bounds.Keys + Ids(ts)
            && (forall id :: id in en.bounds && id !in Ids(ts) ==> n.bounds[id] == en.bounds[id])
    decreases |ts|
  {
    hide Ids;
    if ts == [] {
      EmptyIds();
    } else {
      var k := |ts| - 1;
      AddTasksBounds(en, ts[..k]);
      assert ts == ts[..k] + [ts[k]];
      IdsSnoc(ts[..k], ts[k]);
    }
  }

  lemma {:induction false} AddTasksOwnBounds(en: Engine, ts: seq<Task>, i: nat)
    requires DistinctIds(ts) && i < |ts|
    ensures ts[i].id in AddTasks(en, ts).bounds && AddTasks(en, ts).bounds[ts[i].id] == ts[i].bound
    decreases |ts|
  {
    var k := |ts| - 1;
    assert AddTasks(en, ts).bounds == AddTasks(en, ts[..k]).bounds[ts[k].id := ts[k].bound];
    if i < k {
      assert ts[..k][i] == ts[i];
      AddTasksOwnBounds(en, ts[..k], i);
    }
  }

  lemma EmptyIds()
    ensures Ids([]) == {}
  {}

  lemma DistinctConcat(a: seq<Task>, b: seq<Task>)
    requires DistinctIds(a) && DistinctIds(b) && Ids(a) !! Ids(b)
    ensures DistinctIds(a + b)
  {
    forall i | 0 <= i < |a| ensures a[i].id in Ids(a) {}
    forall i | 0 <= i < |b| ensures b[i].id in Ids(b) {}
  }

  /** `tasks_num_upperbounds` holds exactly the bounds of the residents. */
  ghost predicate BoundsOk(bounds: map<nat, nat>, ts: seq<Task>) {
    && bounds.Keys == Ids(ts)
    && forall i :: 0 <= i < |ts| ==> ts[i].id in bounds && bounds[ts[i].id] == ts[i].bound
  }

  lemma AddTasksKeepsBounds(en: Engine, ts: seq<Task>)
    requires BoundsOk(en.bounds, en.residents) && DistinctIds(ts) && Ids(ts) !! Ids(en.residents)
    ensures BoundsOk(AddTasks(en, ts).bounds, en.residents + ts)
  {
    hide DistinctIds, AddTasks;
    AddTasksBounds(en, ts);
    IdsConcat(en.residents, ts);
    var all := en.residents + ts;
    forall i | 0 <= i < |all|
      ensures all[i].id in AddTasks(en, ts).bounds && AddTasks(en, ts).bounds[all[i].id] == all[i].bound
    {
      if i < |en.residents| {
        assert all[i] == en.residents[i] && all[i].id in Ids(en.residents);
      } else {
        assert all[i] == ts[i - |en.residents|];
        AddTasksOwnBounds(en, ts, i - |en.residents|);
      }
    }
  }

  lemma AddTasksKeeps(en: Engine, ts: seq<Task>)
    requires EngineOk(en) && ts != [] && DistinctIds(ts) && Ids(ts) !! Ids(en.residents) && Available(en, ts)
    ensures EngineOk(AddTasks(en, ts))
    ensures Ids(AddTasks(en, ts).residents) == Ids(en.residents) + Ids(ts)
  {
    hide TokenSum, DistinctIds, Ids, AddTasks, BoundsOk;
    var n := AddTasks(en, ts);
    AddTasksCounters(en, ts);
    AddTasksKeepsBounds(en, ts);
    DistinctConcat(en.residents, ts);
    IdsConcat(en.residents, ts);
    TokenSumConcat(en, en.residents, ts);
    TokenSumSame(en, n, n.residents);
    TextTokens(en, ts);
    TextTokens(en, en.residents);
  }

  lemma {:induction false} TextTokens(en: Engine, ts: seq<Task>)
    ensures en.modelType != TokenId ==> TokenSum(en, ts) == 0
  {
    if ts != [] { TextTokens(en, ts[..|ts| - 1]); }
  }

  /** Dispatching tasks that were never scheduled keeps every engine's books. */
  lemma DispatchKeeps(c: Cluster, e: nat, ts: seq<Task>)
    requires EnginesInv(c) && e in c.engines && ts != [] && DistinctIds(ts) && Ids(ts) !! c.scheduled
             && Available(c.engines[e], ts)
    ensures EnginesInv(Dispatch(c, e, ts))
  {
    hide EngineOk, Available, AddTasks, DistinctIds, Ids;
    AddTasksKeeps(c.engines[e], ts);
  }

  // ---------- No task is dispatched twice ----------

  /** The hypothesis under which grouping is a partition of the queue. */
  ghost predicate OneGroupEach(cfg: Config, q: seq<Task>) {
    && !(cfg.graphGroup && cfg.ctxGroup)
    && (cfg.graphGroup ==> forall i :: 0 <= i < |q| ==> |q[i].groups| <= 1)
  }

  /** The later tasks that belong together with `task`. */
  function Mates(cfg: Config, q: seq<Task>, task: Task, j: nat): seq<Task>
    requires j <= |q|
    decreases |q| - j
  {
    if j == |q| then [] else (if Together(cfg, task, q[j]) then [q[j]] else []) + Mates(cfg, q, task, j + 1)
  }

  lemma SingletonMeets(a: set<nat>, b: set<nat>)
    requires |a| <= 1 && a * b != {}
    ensures a * b == a
  {
    var x :| x in a * b;
    if y :| y in a && y != x {
      assert {x, y} <= a;
      SubsetCard({x, y}, a);
    }
  }

  lemma {:induction false} SubsetCard(a: set<nat>, b: set<nat>)
    requires a <= b
    ensures |a| <= |b|
  {
    if a != {} {
      var x :| x in a;
      SubsetCard(a - {x}, b - {x});
    }
  }

  lemma {:induction false} GroupFromIsMates(cfg: Config, q: seq<Task>, task: Task, j: nat, cur: seq<Task>)
    requires j <= |q| && !(cfg.graphGroup && cfg.ctxGroup) && (cfg.graphGroup ==> |task.groups| <= 1)
    ensures GroupFrom(q, task, j, cur, task.groups, cfg.graphGroup, cfg.ctxGroup) == cur + Mates(cfg, q, task, j)
    decreases |q| - j
  {
    if j < |q| {
      if cfg.graphGroup && task.groups * q[j].groups != {} {
        SingletonMeets(task.groups, q[j].groups);
        GroupFromIsMates(cfg, q, task, j + 1, cur + [q[j]]);
      } else if cfg.ctxGroup && task.firstVar == q[j].firstVar {
        GroupFromIsMates(cfg, q, task, j + 1, cur + [q[j]]);
      } else {
        GroupFromIsMates(cfg, q, task, j + 1, cur);
      }
    } else {
      assert cur + [] == cur;
    }
  }

  lemma {:induction false} NoMates(cfg: Config, q: seq<Task>, task: Task, j: nat)
    requires j <= |q| && !cfg.graphGroup && !cfg.ctxGroup
    ensures Mates(cfg, q, task, j) == []
    decreases |q| - j
  {
    if j < |q| { NoMates(cfg, q, task, j + 1); }
  }

  /** With one group per chain, the group of a task is the task and exactly the later
      tasks that belong together with it. */
  lemma GroupIsClass(cfg: Config, q: seq<Task>, i: nat)
    requires i < |q| && OneGroupEach(cfg, q)
    ensures Group(cfg, q, i) == [q[i]] + Mates(cfg, q, q[i], i + 1)
  {
    if cfg.graphGroup || cfg.ctxGroup {
      GroupFromIsMates(cfg, q, q[i], i + 1, [q[i]]);
    } else {
      NoMates(cfg, q, q[i], i + 1);
    }
  }

  lemma {:induction false} MatesMembers(cfg: Config, q: seq<Task>, task: Task, j: nat)
    requires j <= |q| && DistinctIds(q)
    ensures forall t :: t in Mates(cfg, q, task, j) <==> exists k :: j <= k < |q| && q[k] == t && Together(cfg, task, t)
    ensures DistinctIds(Mates(cfg, q, task, j))
    decreases |q| - j
  {
    if j < |q| {
      MatesMembers(cfg, q, task, j + 1);
      var rest := Mates(cfg, q, task, j + 1);
      forall t
        ensures t in Mates(cfg, q, task, j) <==> exists k :: j <= k < |q| && q[k] == t && Together(cfg, task, t)
      {
        if t in Mates(cfg, q, task, j) {
          if t in rest {
          } else {
            assert t == q[j];
          }
        }
        if k :| j <= k < |q| && q[k] == t && Together(cfg, task, t) {
          assert k == j || t in rest;
        }
      }
      forall i | 0 <= i < |rest| ensures rest[i].id != q[j].id { assert rest[i] in rest; }
    }
  }

  /** Tasks that belong together are scheduled together. */
  ghost predicate Uniform(cfg: Config, c: Cluster, q: seq<Task>, i: nat) {
    forall j, k :: i <= j < |q| && i <= k < |q| && Together(cfg, q[j], q[k]) ==>
      (q[j].id in c.scheduled <==> q[k].id in c.scheduled)
  }

  lemma TogetherTransitive(cfg: Config, a: Task, b: Task, d: Task)
    requires !(cfg.graphGroup && cfg.ctxGroup)
    requires cfg.graphGroup ==> |a.groups| <= 1 && |b.groups| <= 1 && |d.groups| <= 1
    requires Together(cfg, a, b) && Together(cfg, b, d)
    ensures Together(cfg, a, d)
  {
    if cfg.graphGroup {
      SingletonMeets(b.groups, a.groups);
      SingletonMeets(b.groups, d.groups);
      assert b.groups * a.groups == a.groups * b.groups;
      var x :| x in b.groups;
      assert x in a.groups * d.groups;
    }
  }

  /** The group of the next unscheduled task has never been scheduled, in any part. */
  lemma GroupIsNew(cfg: Config, c: Cluster, q: seq<Task>, i: nat)
    requires i < |q| && OneGroupEach(cfg, q) && DistinctIds(q) && Uniform(cfg, c, q, i) && q[i].id !in c.scheduled
    ensures var g := Group(cfg, q, i);
            && g != [] && DistinctIds(g) && Ids(g) !! c.scheduled && Ids(g) <= Ids(q)
            && (forall k :: i <= k < |q| ==> (q[k].id in Ids(g) <==> k == i || Together(cfg, q[i], q[k])))
  {
    GroupIsClass(cfg, q, i);
    MatesMembers(cfg, q, q[i], i + 1);
    var g := Group(cfg, q, i);
    var mates := Mates(cfg, q, q[i], i + 1);
    forall t | t in mates ensures t.id !in c.scheduled && t in q && t.id != q[i].id {
      var k :| i + 1 <= k < |q| && q[k] == t && Together(cfg, q[i], t);
    }
    forall k | i <= k < |q| ensures q[k].id in Ids(g) <==> k == i || Together(cfg, q[i], q[k]) {
      if q[k].id in Ids(g) && k != i {
        var t :| t in g && t.id == q[k].id;
        assert t in mates;
        var k' :| i + 1 <= k' < |q| && q[k'] == t && Together(cfg, q[i], t);
        assert k' == k;
      }
      if k > i && Together(cfg, q[i], q[k]) { assert q[k] in mates; }
      assert q[i] in g;
    }
    forall a, b | 0 <= a < b < |g| ensures g[a].id != g[b].id {
      assert b > 0 ==> g[b] == mates[b - 1] && g[b] in mates;
      assert a > 0 ==> g[a] == mates[a - 1];
    }
  }

  lemma UniformSkips(cfg: Config, c: Cluster, q: seq<Task>, i: nat)
    requires i < |q| && Uniform(cfg, c, q, i)
    ensures Uniform(cfg, c, q, i + 1)
  {}

  lemma UniformAfterDispatch(cfg: Config, c: Cluster, n: Cluster, q: seq<Task>, i: nat)
    requires i < |q| && OneGroupEach(cfg, q) && DistinctIds(q) && Uniform(cfg, c, q, i) && q[i].id !in c.scheduled
    requires n.scheduled == c.scheduled + Ids(Group(cfg, q, i))
    ensures Uniform(cfg, n, q, i + 1)
  {
    hide Group, DistinctIds, Ids;
    GroupIsNew(cfg, c, q, i);
    forall j, k | i + 1 <= j < |q| && i + 1 <= k < |q| && Together(cfg, q[j], q[k])
      ensures q[j].id in n.scheduled <==> q[k].id in n.scheduled
    {
      if Together(cfg, q[i], q[j]) { TogetherTransitive(cfg, q[i], q[j], q[k]); }
      if Together(cfg, q[i], q[k]) {
        assert Together(cfg, q[k], q[j]) by { TogetherSymmetric(cfg, q[j], q[k]); }
        TogetherTransitive(cfg, q[i], q[k], q[j]);
      }
    }
  }

  lemma TogetherSymmetric(cfg: Config, a: Task, b: Task)
    requires Together(cfg, a, b)
    ensures Together(cfg, b, a)
  {
    assert a.groups * b.groups == b.groups * a.groups;
  }

  /** Everything that was dispatched is on exactly one engine: the newly scheduled ids are
      exactly the new residents. */
  ghost predicate Conserved(c: Cluster, n: Cluster) {
    && n.engines.Keys == c.engines.Keys && n.queue == c.queue && n.live == c.live && c.scheduled <= n.scheduled
    && (forall e :: e in c.engines ==> c.engines[e].residents <= n.engines[e].residents)
    && (forall id :: New(c, n, id) <==> id in n.scheduled && id !in c.scheduled)
  }

  ghost predicate New(c: Cluster, n: Cluster, id: nat) {
    exists e :: NewOn(c, n, e, id)
  }

  ghost predicate NewOn(c: Cluster, n: Cluster, e: nat, id: nat) {
    e in c.engines && e in n.engines && id in Ids(n.engines[e].residents) && id !in Ids(c.engines[e].residents)
  }

  lemma DispatchConserves(c: Cluster, e: nat, ts: seq<Task>)
    requires EnginesInv(c) && e in c.engines && Ids(ts) !! c.scheduled
    ensures Conserved(c, Dispatch(c, e, ts))
  {
    hide EngineOk, Ids;
    var n := Dispatch(c, e, ts);
    AddTasksCounters(c.engines[e], ts);
    IdsConcat(c.engines[e].residents, ts);
    forall id ensures New(c, n, id) <==> id in n.scheduled && id !in c.scheduled {
      if id in Ids(ts) { assert NewOn(c, n, e, id); }
    }
  }

  lemma IdsConcat(a: seq<Task>, b: seq<Task>)
    ensures Ids(a + b) == Ids(a) + Ids(b)
  {}

  lemma ConservedTransitive(c: Cluster, m: Cluster, n: Cluster)
    requires Conserved(c, m) && Conserved(m, n) && EnginesInv(c) && EnginesInv(m) && EnginesInv(n)
    ensures Conserved(c, n)
  {
    hide EngineOk, Ids;
    forall e | e in c.engines ensures c.engines[e].residents <= n.engines[e].residents
      ensures Ids(c.engines[e].residents) <= Ids(m.engines[e].residents) <= Ids(n.engines[e].residents)
    {
      IdsPrefix(c.engines[e].residents, m.engines[e].residents);
      IdsPrefix(m.engines[e].residents, n.engines[e].residents);
    }
    forall id ensures New(c, n, id) <==> New(c, m, id) || New(m, n, id) {
      if e :| NewOn(c, m, e, id) { assert NewOn(c, n, e, id); }
      if e :| NewOn(m, n, e, id) { assert NewOn(c, n, e, id); }
      if e :| NewOn(c, n, e, id) { assert NewOn(c, m, e, id) || NewOn(m, n, e, id); }
    }
  }

  lemma IdsPrefix(a: seq<Task>, b: seq<Task>)
    requires a <= b
    ensures Ids(a) <= Ids(b)
  {
    assert b == a + b[|a|..];
    IdsConcat(a, b[|a|..]);
  }

  lemma ConservedRefl(c: Cluster)
    ensures Conserved(c, c)
  {}

  /** The loop over the queue dispatches only tasks that were never scheduled, each to one
      engine, and keeps every engine's books. */
  lemma {:induction false} ScheduleFromKeeps(cfg: Config, c: Cluster, q: seq<Task>, i: nat, choice: nat -> nat)
    requires i <= |q| && EnginesInv(c) && OneGroupEach(cfg, q) && DistinctIds(q) && Uniform(cfg, c, q, i)
    ensures var n := ScheduleFrom(cfg, c, q, i, choice);
            EnginesInv(n) && Conserved(c, n) && n.scheduled <= c.scheduled + Ids(q)
    decreases |q| - i
  {
    hide EnginesInv, DistinctIds, Ids, Uniform, Group, Conserved, OneGroupEach, EngineList, Available;
    ConservedRefl(c);
    if i < |q| {
      if q[i].id in c.scheduled {
        UniformSkips(cfg, c, q, i);
        ScheduleFromKeeps(cfg, c, q, i + 1, choice);
      } else {
        GroupIsNew(cfg, c, q, i);
        var g := Group(cfg, q, i);
        var avail := EngineList(c.engines, c.live, g);
        if avail == [] {
          UniformSkips(cfg, c, q, i);
          ScheduleFromKeeps(cfg, c, q, i + 1, choice);
        } else {
          var e := avail[choice(i) % |avail|];
          DispatchKeeps(c, e, g);
          DispatchConserves(c, e, g);
          var m := Dispatch(c, e, g);
          UniformAfterDispatch(cfg, c, m, q, i);
          ScheduleFromKeeps(cfg, m, q, i + 1, choice);
          ConservedTransitive(c, m, ScheduleFrom(cfg, m, q, i + 1, choice));
        }
      }
    }
  }

  lemma {:induction false} ByIdDistinct(ts: seq<Task>, scheduled: set<nat>, keep: bool)
    requires DistinctIds(ts)
    ensures DistinctIds(ById(ts, scheduled, keep))
  {
    if ts != [] {
      var k := |ts| - 1;
      var rest := ById(ts[..k], scheduled, keep);
      ByIdDistinct(ts[..k], scheduled, keep);
      forall i | 0 <= i < |rest| ensures rest[i].id != ts[k].id { assert rest[i] in rest; }
    }
  }

  lemma PermutationDistinct(a: seq<Task>, b: seq<Task>)
    requires multiset(a) == multiset(b) && DistinctIds(a)
    ensures DistinctIds(b) && Ids(a) == Ids(b)
  {
    forall t ensures t in a <==> t in b { assert t in multiset(a) <==> t in multiset(b); }
    forall i, j | 0 <= i < j < |b| ensures b[i].id != b[j].id {
      assert b[i] in a && b[j] in a;
      if b[i] == b[j] {
        TwiceInMultiset(b, i, j);
        OnceInMultiset(a, b[i]);
      }
    }
  }

  lemma TwiceInMultiset(b: seq<Task>, i: nat, j: nat)
    requires i < j < |b| && b[i] == b[j]
    ensures multiset(b)[b[i]] >= 2
  {
    assert b == b[..i] + [b[i]] + b[i + 1..j] + [b[j]] + b[j + 1..];
  }

  lemma OnceInMultiset(a: seq<Task>, t: Task)
    requires DistinctIds(a) && t in a
    ensures multiset(a)[t] == 1
  {
    var i :| 0 <= i < |a| && a[i] == t;
    assert a == a[..i] + [t] + a[i + 1..];
    assert t !in a[..i] && t !in a[i + 1..];
  }

  /** One round of `schedule`: every queued task is dispatched at most once, the queue
      keeps exactly the undispatched tasks in the order they had, and all counters stay
      exact and within capacity. */
  lemma ScheduleKeeps(cfg: Config, c: Cluster, choice: nat -> nat)
    requires ClusterInv(c) && OneGroupEach(cfg, c.queue)
    ensures var n := Schedule(cfg, c, choice);
            && ClusterInv(n)
            && n.queue == ById(Ordered(cfg, c.queue), n.scheduled, false)
            && n.scheduled - c.scheduled <= Ids(c.queue)
            && (forall id :: New(c, n, id) <==> id in n.scheduled && id !in c.scheduled)
  {
    hide EnginesInv, OneGroupEach, SortByDepth, DistinctIds, Ids, ById, ScheduleFrom, Uniform, New;
    var q := Ordered(cfg, c.queue);
    PermutationDistinct(c.queue, q);
    OrderedOneGroup(cfg, c.queue, q);
    InitiallyUniform(cfg, c, q);
    ScheduleFromKeeps(cfg, c, q, 0, choice);
    var m := ScheduleFrom(cfg, c, q, 0, choice);
    var n := Schedule(cfg, c, choice);
    ByIdDistinct(q, m.scheduled, false);
    QueueLeft(q, m.scheduled);
    EnginesFrame(m, n);
    SameNew(c, m, n);
  }

  lemma SameNew(c: Cluster, m: Cluster, n: Cluster)
    requires n.engines == m.engines
    ensures forall id :: New(c, n, id) <==> New(c, m, id)
  {
    forall id ensures New(c, n, id) <==> New(c, m, id) {
      if e :| NewOn(c, m, e, id) { assert NewOn(c, n, e, id); }
      if e :| NewOn(c, n, e, id) { assert NewOn(c, m, e, id); }
    }
  }

  lemma QueueLeft(q: seq<Task>, scheduled: set<nat>)
    ensures Ids(ById(q, scheduled, false)) !! scheduled
  {}

  lemma EnginesFrame(m: Cluster, n: Cluster)
    requires EnginesInv(m) && n.engines == m.engines && n.scheduled == m.scheduled
    ensures EnginesInv(n)
  {}

  lemma OrderedOneGroup(cfg: Config, a: seq<Task>, b: seq<Task>)
    requires OneGroupEach(cfg, a) && multiset(a) == multiset(b)
    ensures OneGroupEach(cfg, b)
  {
    forall i | 0 <= i < |b| ensures b[i] in a { assert b[i] in multiset(b); }
  }

  lemma InitiallyUniform(cfg: Config, c: Cluster, q: seq<Task>)
    requires Ids(q) !! c.scheduled
    ensures Uniform(cfg, c, q, 0)
  {
    forall j | 0 <= j < |q| ensures q[j].id !in c.scheduled { assert q[j].id in Ids(q); }
  }

  lemma GroupOfThree(cfg: Config, a: Task, b: Task, d: Task)
    requires cfg.graphGroup && !cfg.ctxGroup
    requires a.groups * d.groups != {} && b.groups * d.groups != {} && a.groups * b.groups == {}
    ensures Group(cfg, [a, b, d], 0) == [a, d] && Group(cfg, [a, b, d], 1) == [b, d]
  {
    var q := [a, b, d];
    assert GroupFrom(q, a, 3, [a] + [d], a.groups * d.groups, true, false) == [a, d];
    assert GroupFrom(q, a, 2, [a], a.groups, true, false) == [a, d];
    assert GroupFrom(q, b, 3, [b] + [d], b.groups * d.groups, true, false) == [b, d];
  }

  lemma OnlyEngine(c: Cluster, e: nat, ts: seq<Task>, pick: nat)
    requires c.live == [e] && e in c.engines && ts != [] && Available(c.engines[e], ts)
    ensures var avail := EngineList(c.engines, c.live, ts); avail != [] && avail[pick % |avail|] == e
  {
    hide Available;
    assert c.live[1..] == [];
    assert EngineList(c.engines, c.live[1..], ts) == [];
  }

  /** The hypothesis about groups is needed, for every way in which sharing a group fails to
      be transitive: a and b each share a group with d but not with each other.  The group
      around b takes in d again, the second dispatch goes through, and d is counted twice on
      its engine. */
  lemma TwoGroupsDispatchTwice(cfg: Config, c: Cluster, e: nat, a: Task, b: Task, d: Task, choice: nat -> nat)
    requires cfg.graphGroup && !cfg.ctxGroup && e in c.engines && c.live == [e]
    requires a.groups * d.groups != {} && b.groups * d.groups != {} && a.groups * b.groups == {}
    requires a.id != b.id && b.id != d.id && a.id !in c.scheduled && b.id !in c.scheduled
    requires Available(c.engines[e], [a, d]) && Available(AddTasks(c.engines[e], [a, d]), [b, d])
    ensures var n := ScheduleFrom(cfg, c, [a, b, d], 0, choice);
            && e in n.engines && n.engines[e] == AddTasks(AddTasks(c.engines[e], [a, d]), [b, d])
            && n.engines[e].residents == c.engines[e].residents + [a, d] + [b, d]
            && n.engines[e].numTasks == c.engines[e].numTasks + 4
            && !EnginesInv(n)
  {
    hide Available, Group, AddTasks, EngineList;
    var q := [a, b, d];
    GroupOfThree(cfg, a, b, d);
    OnlyEngine(c, e, [a, d], choice(0));
    var c1 := Dispatch(c, e, [a, d]);
    assert Ids([a, d]) == {a.id, d.id};
    OnlyEngine(c1, e, [b, d], choice(1));
    var c2 := Dispatch(c1, e, [b, d]);
    assert Ids([b, d]) == {b.id, d.id};
    assert ScheduleFrom(cfg, c, q, 0, choice) == ScheduleFrom(cfg, c1, q, 1, choice);
    assert ScheduleFrom(cfg, c1, q, 1, choice) == ScheduleFrom(cfg, c2, q, 2, choice);
    assert ScheduleFrom(cfg, c2, q, 2, choice) == ScheduleFrom(cfg, c2, q, 3, choice) == c2;
    AddTasksCounters(c.engines[e], [a, d]);
    AddTasksCounters(c1.engines[e], [b, d]);
    var rs := c2.engines[e].residents;
    var k := |c.engines[e].residents|;
    assert rs[k + 1] == d && rs[k + 3] == d;
    assert !EngineOk(c2.engines[e]);
  }

  // ---------- Latency isolation ----------

  /** An engine never holds more tasks than any of its residents tolerates. */
  ghost predicate Isolated(en: Engine) {
    forall i :: 0 <= i < |en.residents| ==> en.numTasks <= en.residents[i].bound
  }

  /** A dispatch that passed the availability check keeps latency isolation if and only if
      the whole group, not just one task, fits under the bound of each of its members. */
  lemma DispatchIsolatesIff(en: Engine, ts: seq<Task>)
    requires EngineOk(en) && Isolated(en) && ts != [] && Available(en, ts)
    ensures Isolated(AddTasks(en, ts)) <==> forall i :: 0 <= i < |ts| ==> en.numTasks + |ts| <= ts[i].bound
  {
    hide TokenSum, DistinctIds, Ids, AddTasks;
    var n := AddTasks(en, ts);
    AddTasksCounters(en, ts);
    forall i | 0 <= i < |en.residents| ensures en.numTasks + |ts| <= en.residents[i].bound {
      assert en.residents[i].id in en.bounds;
    }
    if Isolated(n) {
      forall i | 0 <= i < |ts| ensures en.numTasks + |ts| <= ts[i].bound {
        assert n.residents[|en.residents| + i] == ts[i];
      }
    }
  }

  /** So any group of five latency-bound tasks (bound 4) that fits an empty engine is
      admitted and breaks it. */
  lemma GroupingBreaksIsolation(en: Engine, ts: seq<Task>)
    requires EngineOk(en) && en.residents == [] && |ts| == 5 && DistinctIds(ts)
    requires forall i :: 0 <= i < |ts| ==> ts[i].bound == 4 && ts[i].modelType == en.modelType && ts[i].models == []
    requires en.tasksCapacity >= 5 && en.tokensCapacity >= TokenSum(en, ts)
    ensures Available(en, ts) && !Isolated(AddTasks(en, ts))
  {
    hide TokenSum;
    EmptySum(en);
    EmptyIds();
    assert Available(en, ts);
    DispatchIsolatesIff(en, ts);
    assert ts[0].bound == 4;
  }

  lemma EmptySum(en: Engine)
    ensures TokenSum(en, []) == 0
  {}

  ghost predicate AllIsolated(c: Cluster) {
    forall e :: e in c.engines ==> Isolated(c.engines[e])
  }

  lemma {:induction false} ScheduleFromIsolates(cfg: Config, c: Cluster, q: seq<Task>, i: nat, choice: nat -> nat)
    requires i <= |q| && EnginesInv(c) && DistinctIds(q) && !cfg.graphGroup && !cfg.ctxGroup && AllIsolated(c)
    ensures AllIsolated(ScheduleFrom(cfg, c, q, i, choice))
    decreases |q| - i
  {
    hide EngineOk, Available, AddTasks, Isolated, EngineList, Ids;
    if i < |q| {
      if q[i].id in c.scheduled {
        ScheduleFromIsolates(cfg, c, q, i + 1, choice);
      } else {
        var g := [q[i]];
        var avail := EngineList(c.engines, c.live, g);
        if avail == [] {
          ScheduleFromIsolates(cfg, c, q, i + 1, choice);
        } else {
          var e := avail[choice(i) % |avail|];
          OneTaskIds(q[i]);
          DispatchKeeps(c, e, g);
          var m := Dispatch(c, e, g);
          OneTaskIsolates(c.engines[e], q[i]);
          ScheduleFromIsolates(cfg, m, q, i + 1, choice);
        }
      }
    }
  }

  lemma OneTaskIds(t: Task)
    ensures Ids([t]) == {t.id}
  {}

  lemma OneTaskIsolates(en: Engine, t: Task)
    requires EngineOk(en) && Isolated(en) && Available(en, [t])
    ensures Isolated(AddTasks(en, [t]))
  {
    hide EngineOk, AddTasks, Isolated;
    DispatchIsolatesIff(en, [t]);
    assert [t][0] == t;
  }

  // ---------- Freeing ----------

  lemma {:induction false} RemoveTokens(en: Engine, ts: seq<Task>, t: Task)
    requires t in ts
    ensures TokenSum(en, Remove(ts, t)) == TokenSum(en, ts) - TokensOn(en, t)
  {
    assert ts == [ts[0]] + ts[1..];
    TokenSumConcat(en, [ts[0]], ts[1..]);
    assert [ts[0]][..0] == [];
    assert TokenSum(en, [ts[0]]) == TokensOn(en, ts[0]);
    if ts[0] != t {
      RemoveTokens(en, ts[1..], t);
      TokenSumConcat(en, [ts[0]], Remove(ts[1..], t));
    }
  }

  lemma DistinctTail(ts: seq<Task>)
    requires ts != [] && DistinctIds(ts)
    ensures DistinctIds(ts[1..]) && ts[0].id !in Ids(ts[1..])
  {
    forall i, j | 0 <= i < j < |ts[1..]| ensures ts[1..][i].id != ts[1..][j].id {
      assert ts[1..][i] == ts[i + 1] && ts[1..][j] == ts[j + 1];
    }
  }

  lemma {:induction false} RemoveShape(en: Engine, ts: seq<Task>, t: Task)
    requires t in ts && DistinctIds(ts)
    ensures var r := Remove(ts, t);
            && |r| == |ts| - 1 && DistinctIds(r) && Ids(r) == Ids(ts) - {t.id}
            && (forall i :: 0 <= i < |r| ==> r[i] in ts)
            && TokenSum(en, r) == TokenSum(en, ts) - TokensOn(en, t)
  {
    hide TokenSum, DistinctIds, Ids;
    RemoveTokens(en, ts, t);
    var head, tail := ts[0], ts[1..];
    assert ts == [head] + tail;
    DistinctTail(ts);
    IdsConcat([head], tail);
    OneTaskIds(head);
    if head != t {
      RemoveShape(en, tail, t);
      var r := Remove(tail, t);
      IdsConcat([head], r);
      IdOf(tail, t);
      OneDistinct(head);
      DistinctConcat([head], r);
    }
  }

  lemma OneDistinct(t: Task)
    ensures DistinctIds([t])
  {}

  lemma IdOf(ts: seq<Task>, t: Task)
    requires t in ts
    ensures t.id in Ids(ts)
  {}

  /** A dispatched task can always be freed, and takes exactly its own share of the
      counters with it. */
  lemma FreeKeeps(c: Cluster, e: nat, t: Task)
    requires ClusterInv(c) && e in c.engines && t in c.engines[e].residents
    ensures FreeTask(c, e, t).Ok? && ClusterInv(FreeTask(c, e, t).value)
    ensures AllIsolated(c) ==> AllIsolated(FreeTask(c, e, t).value)
    ensures FreeTask(c, e, t).value.queue == c.queue && FreeTask(c, e, t).value.scheduled == c.scheduled
  {
    hide DistinctIds, Ids, TokenSum;
    var en := c.engines[e];
    FreeEngineKeeps(en, t);
    var n := FreeTask(c, e, t).value;
    assert forall f :: f in n.engines && f != e ==> n.engines[f] == c.engines[f];
  }

  /** Freeing undoes dispatching: the engine's counters, bounds and residents are again what
      they were. */
  lemma FreeUndoesDispatch(c: Cluster, e: nat, t: Task)
    requires EnginesInv(c) && e in c.engines && t.id !in c.scheduled
    ensures FreeTask(Dispatch(c, e, [t]), e, t).Ok? && FreeTask(Dispatch(c, e, [t]), e, t).value.engines == c.engines
  {
    hide EngineOk;
    var en := c.engines[e];
    assert [t][..0] == [] && [t][0] == t;
    assert AddTasks(en, [t]) == AddTask(en, t);
    BoundsOfResidents(en);
    forall i | 0 <= i < |en.residents| ensures en.residents[i] != t { assert en.residents[i].id in Ids(en.residents); }
    RemoveAppended(en.residents, t);
    assert t.id !in en.bounds;
    assert en.bounds[t.id := t.bound] - {t.id} == en.bounds;
    assert RemoveTask(AddTask(en, t), t) == Ok(en);
    assert c.engines[e := AddTask(en, t)][e := en] == c.engines;
  }

  lemma BoundsOfResidents(en: Engine)
    requires EngineOk(en)
    ensures en.bounds.Keys == Ids(en.residents)
  {}

  lemma {:induction false} RemoveAppended(ts: seq<Task>, t: Task)
    requires t !in ts
    ensures Remove(ts + [t], t) == ts
    decreases |ts|
  {
    if ts != [] {
      assert (ts + [t])[1..] == ts[1..] + [t];
      RemoveAppended(ts[1..], t);
      assert ts == [ts[0]] + ts[1..];
    }
  }

  lemma FreeEngineKeeps(en: Engine, t: Task)
    requires EngineOk(en) && t in en.residents
    ensures RemoveTask(en, t).Ok? && EngineOk(RemoveTask(en, t).value)
    ensures Ids(RemoveTask(en, t).value.residents) <= Ids(en.residents)
    ensures Isolated(en) ==> Isolated(RemoveTask(en, t).value)
  {
    hide TokenSum, DistinctIds, Ids, Remove, BoundsOk;
    RemoveShape(en, en.residents, t);
    FreeKeepsBounds(en, t);
    var n := RemoveTask(en, t).value;
    TokenSumSame(en, n, n.residents);
    forall j | 0 <= j < |n.residents| && Isolated(en) ensures n.numTasks <= n.residents[j].bound {
      var k :| 0 <= k < |en.residents| && en.residents[k] == n.residents[j];
    }
  }

  lemma FreeKeepsBounds(en: Engine, t: Task)
    requires BoundsOk(en.bounds, en.residents) && DistinctIds(en.residents) && t in en.residents
    ensures t.id in en.bounds && BoundsOk(en.bounds - {t.id}, Remove(en.residents, t))
  {
    hide DistinctIds, Remove;
    RemoveShape(en, en.residents, t);
    var r := Remove(en.residents, t);
    forall j | 0 <= j < |r| ensures r[j].id in en.bounds - {t.id} && en.bounds[r[j].id] == r[j].bound {
      var k :| 0 <= k < |en.residents| && en.residents[k] == r[j];
      assert r[j].id in Ids(r);
    }
  }

  // ---------- Whole runs ----------

  datatype Step = SubmitTask(t: Task) | Round(choice: nat -> nat) | Free(e: nat, t: Task)

  /** Task ids are never reused, and with graph grouping each chain is in at most one
      group (see `RequestGraph.OneGroupPerChain`). */
  ghost predicate Allowed(cfg: Config, c: Cluster, st: Step) {
    match st
    case SubmitTask(t) => t.id !in c.scheduled && t.id !in Ids(c.queue) && (cfg.graphGroup ==> |t.groups| <= 1)
    case Round(_) => true
    case Free(e, t) => e in c.engines && t in c.engines[e].residents
  }

  /** A rejected submission and a task that is not there leave the cluster as it was. */
  function After(cfg: Config, c: Cluster, st: Step): Cluster {
    match st
    case SubmitTask(t) => (match Submit(cfg, c, t) case Ok(n) => n case Raised => c)
    case Round(choice) => Schedule(cfg, c, choice)
    case Free(e, t) => (match FreeTask(c, e, t) case Ok(n) => n case Raised => c)
  }

  ghost predicate ClusterRuns(cfg: Config, c0: Cluster, steps: seq<Step>, c: Cluster)
    decreases |steps|
  {
    if steps == [] then c == c0
    else
      var k := |steps| - 1;
      exists r :: ClusterRuns(cfg, c0, steps[..k], r) && Allowed(cfg, r, steps[k]) && c == After(cfg, r, steps[k])
  }

  ghost predicate Fresh(c: Cluster) {
    && c.queue == [] && c.scheduled == {}
    && forall e :: e in c.engines ==>
         && c.engines[e].residents == [] && c.engines[e].numTasks == 0 && c.engines[e].tokensNum == 0
         && c.engines[e].bounds == map[] && c.engines[e].tasksCapacity >= 0 && c.engines[e].tokensCapacity >= 0
  }

  lemma FreshInv(cfg: Config, c: Cluster)
    requires Fresh(c) && !(cfg.graphGroup && cfg.ctxGroup)
    ensures ClusterInv(c) && OneGroupEach(cfg, c.queue) && AllIsolated(c)
  {
    EmptyIds();
  }

  lemma StepKeeps(cfg: Config, c: Cluster, st: Step)
    requires ClusterInv(c) && OneGroupEach(cfg, c.queue) && Allowed(cfg, c, st)
    ensures ClusterInv(After(cfg, c, st)) && OneGroupEach(cfg, After(cfg, c, st).queue)
    ensures AllIsolated(c) && !cfg.graphGroup && !cfg.ctxGroup ==> AllIsolated(After(cfg, c, st))
  {
    match st
    case SubmitTask(t) => SubmitKeeps(cfg, c, t);
    case Round(choice) =>
      ScheduleKeeps(cfg, c, choice);
      RoundGroups(cfg, c, choice);
      if AllIsolated(c) && !cfg.graphGroup && !cfg.ctxGroup { RoundIsolates(cfg, c, choice); }
    case Free(e, t) => FreeKeeps(c, e, t);
  }

  lemma SubmitKeeps(cfg: Config, c: Cluster, t: Task)
    requires ClusterInv(c) && OneGroupEach(cfg, c.queue) && Allowed(cfg, c, SubmitTask(t))
    ensures ClusterInv(After(cfg, c, SubmitTask(t))) && OneGroupEach(cfg, After(cfg, c, SubmitTask(t)).queue)
    ensures AllIsolated(c) ==> AllIsolated(After(cfg, c, SubmitTask(t)))
  {
    hide EngineOk;
    IdsSnoc(c.queue, t);
    forall i | 0 <= i < |c.queue| ensures c.queue[i].id != t.id { assert c.queue[i].id in Ids(c.queue); }
  }

  lemma RoundGroups(cfg: Config, c: Cluster, choice: nat -> nat)
    requires ClusterInv(c) && OneGroupEach(cfg, c.queue)
    ensures OneGroupEach(cfg, Schedule(cfg, c, choice).queue)
  {
    hide ScheduleFrom, SortByDepth, ById, EngineOk;
    var q := Ordered(cfg, c.queue);
    OrderedOneGroup(cfg, c.queue, q);
    var n := Schedule(cfg, c, choice);
    forall i | 0 <= i < |n.queue| ensures n.queue[i] in q { assert n.queue[i] in n.queue; }
  }

  lemma RoundIsolates(cfg: Config, c: Cluster, choice: nat -> nat)
    requires ClusterInv(c) && AllIsolated(c) && !cfg.graphGroup && !cfg.ctxGroup
    ensures AllIsolated(Schedule(cfg, c, choice))
  {
    hide ScheduleFrom, SortByDepth, ById, EngineOk, Isolated;
    var q := Ordered(cfg, c.queue);
    PermutationDistinct(c.queue, q);
    ScheduleFromIsolates(cfg, c, q, 0, choice);
  }

  /** Over every run of submissions, rounds and frees, whatever the best-engine heuristic
      picks: no task is on two engines or twice on one, every engine's task and token
      counters are the exact sums over its residents and within its capacity, and no
      queued task has been dispatched. */
  lemma {:induction false} ClusterSafe(cfg: Config, c0: Cluster, steps: seq<Step>, c: Cluster)
    requires Fresh(c0) && !(cfg.graphGroup && cfg.ctxGroup) && ClusterRuns(cfg, c0, steps, c)
    ensures ClusterInv(c) && OneGroupEach(cfg, c.queue)
    decreases |steps|
  {
    hide ClusterInv, OneGroupEach, AllIsolated, After;
    if steps == [] {
      FreshInv(cfg, c);
    } else {
      var k := |steps| - 1;
      var r :| ClusterRuns(cfg, c0, steps[..k], r) && Allowed(cfg, r, steps[k]) && c == After(cfg, r, steps[k]);
      ClusterSafe(cfg, c0, steps[..k], r);
      StepKeeps(cfg, r, steps[k]);
    }
  }

  /** With grouping off, in every reachable state every engine holds at most as many tasks
      as each of its residents tolerates. */
  lemma {:induction false} LatencyIsolation(cfg: Config, c0: Cluster, steps: seq<Step>, c: Cluster)
    requires Fresh(c0) && !cfg.graphGroup && !cfg.ctxGroup && ClusterRuns(cfg, c0, steps, c)
    ensures AllIsolated(c)
    decreases |steps|
  {
    hide ClusterInv, OneGroupEach, AllIsolated, After;
    if steps == [] {
      FreshInv(cfg, c);
    } else {
      var k := |steps| - 1;
      var r :| ClusterRuns(cfg, c0, steps[..k], r) && Allowed(cfg, r, steps[k]) && c == After(cfg, r, steps[k]);
      LatencyIsolation(cfg, c0, steps[..k], r);
      ClusterSafe(cfg, c0, steps[..k], r);
      StepKeeps(cfg, r, steps[k]);
    }
  }
}
