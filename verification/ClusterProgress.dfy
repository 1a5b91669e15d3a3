/** What the cluster scheduler achieves: a round leaves no task behind that an engine could
    take, tasks run where they want to, and the queue keeps its order. */
module ClusterProgress {
  import opened Wrappers
  import opened ClusterScheduling

  // ---------- Work conservation ----------

  /** What n's engines can take, c's engines could take, engine by engine. */
  ghost predicate Fuller(c: Cluster, n: Cluster) {
    && n.live == c.live && n.engines.Keys == c.engines.Keys
    && forall e, ts: seq<Task> :: e in c.engines && ts != [] && Available(n.engines[e], ts) ==>
         Available(c.engines[e], ts)
  }

  lemma {:induction false} TokensOnlyGrow(en: Engine, n: Engine, ts: seq<Task>)
    requires n.tokensCapacity == en.tokensCapacity && n.modelType == en.modelType && n.tokenizer == en.tokenizer
    requires en.tokensNum <= n.tokensNum && TokenSum(n, ts) <= n.tokensCapacity - n.tokensNum
    ensures TokenSum(en, ts) <= en.tokensCapacity - en.tokensNum
  {
    TokenSumSame(en, n, ts);
  }

  /** Dispatching new tasks to an engine makes it available for nothing it was not
      available for. */
  lemma DispatchOnlyFills(en: Engine, ts: seq<Task>, other: seq<Task>)
    requires Ids(ts) !! en.bounds.Keys && other != [] && Available(AddTasks(en, ts), other)
    ensures Available(en, other)
  {
    hide TokenSum, Ids, AddTasks;
    AddTasksCounters(en, ts);
    AddTasksBounds(en, ts);
    var n := AddTasks(en, ts);
    if en.modelType == TokenId { TokensOnlyGrow(en, n, other); }
    forall t | t in en.bounds ensures |other| + en.numTasks <= en.bounds[t] {
      assert t in n.bounds;
    }
  }

  lemma BoundsScheduled(c: Cluster, e: nat)
    requires EnginesInv(c) && e in c.engines
    ensures c.engines[e].bounds.Keys <= c.scheduled
  {}

  lemma DispatchFuller(c: Cluster, e: nat, ts: seq<Task>)
    requires EnginesInv(c) && e in c.engines && Ids(ts) !! c.scheduled
    ensures Fuller(c, Dispatch(c, e, ts))
  {
    hide EnginesInv, Available, AddTasks, Ids;
    BoundsScheduled(c, e);
    var n := Dispatch(c, e, ts);
    forall f, other: seq<Task> | f in c.engines && other != [] && Available(n.engines[f], other)
      ensures Available(c.engines[f], other)
    {
      if f == e { DispatchOnlyFills(c.engines[e], ts, other); }
    }
  }

  lemma FullerTransitive(c: Cluster, m: Cluster, n: Cluster)
    requires Fuller(c, m) && Fuller(m, n)
    ensures Fuller(c, n)
  {
    hide Available;
  }

  lemma {:induction false} NoEngine(engines: map<nat, Engine>, live: seq<nat>, ts: seq<Task>)
    requires ts != []
    ensures EngineList(engines, live, ts) == [] <==> forall i :: 0 <= i < |live| ==> !Usable(engines, live, ts, i)
  {
    hide EngineList, Usable;
    var at := EngineListExact(engines, live, ts);
    if EngineList(engines, live, ts) != [] { assert Usable(engines, live, ts, at[0]); }
  }

  lemma StillNoEngine(c: Cluster, n: Cluster, ts: seq<Task>)
    requires Fuller(c, n) && ts != [] && EngineList(c.engines, c.live, ts) == []
    ensures EngineList(n.engines, n.live, ts) == []
  {
    hide Available, EngineList;
    NoEngine(c.engines, c.live, ts);
    NoEngine(n.engines, n.live, ts);
    forall i | 0 <= i < |n.live| ensures !Usable(n.engines, n.live, ts, i) {
      assert !Usable(c.engines, c.live, ts, i);
    }
  }

  /** Every task from position i on was dispatched, or no engine can take its group. */
  ghost predicate NoneLeft(cfg: Config, q: seq<Task>, i: nat, n: Cluster) {
    forall j :: i <= j < |q| && q[j].id !in n.scheduled ==>
      Group(cfg, q, j) != [] && EngineList(n.engines, n.live, Group(cfg, q, j)) == []
  }

  lemma NoneLeftHere(cfg: Config, q: seq<Task>, i: nat, c: Cluster, n: Cluster)
    requires i < |q| && NoneLeft(cfg, q, i + 1, n) && Fuller(c, n)
    requires q[i].id in n.scheduled || (Group(cfg, q, i) != [] && EngineList(c.engines, c.live, Group(cfg, q, i)) == [])
    ensures NoneLeft(cfg, q, i, n)
  {
    hide Group, Fuller, EngineList;
    if q[i].id !in n.scheduled { StillNoEngine(c, n, Group(cfg, q, i)); }
  }

  lemma {:induction false} ScheduleFromFills(cfg: Config, c: Cluster, q: seq<Task>, i: nat, choice: nat -> nat)
    requires i <= |q| && EnginesInv(c) && OneGroupEach(cfg, q) && DistinctIds(q) && Uniform(cfg, c, q, i)
    ensures var n := ScheduleFrom(cfg, c, q, i, choice);
            Fuller(c, n) && NoneLeft(cfg, q, i, n) && c.scheduled <= n.scheduled
    decreases |q| - i
  {
    hide EnginesInv, DistinctIds, Ids, Uniform, Group, OneGroupEach, EngineList, Available, NoneLeft, Fuller;
    if i == |q| {
      FullerRefl(cfg, c, q);
    } else {
      if q[i].id in c.scheduled {
        UniformSkips(cfg, c, q, i);
        ScheduleFromFills(cfg, c, q, i + 1, choice);
        NoneLeftHere(cfg, q, i, c, ScheduleFrom(cfg, c, q, i + 1, choice));
      } else {
        GroupIsNew(cfg, c, q, i);
        var g := Group(cfg, q, i);
        var avail := EngineList(c.engines, c.live, g);
        if avail == [] {
          UniformSkips(cfg, c, q, i);
          ScheduleFromFills(cfg, c, q, i + 1, choice);
          NoneLeftHere(cfg, q, i, c, ScheduleFrom(cfg, c, q, i + 1, choice));
        } else {
          var e := avail[choice(i) % |avail|];
          DispatchKeeps(c, e, g);
          DispatchFuller(c, e, g);
          var m := Dispatch(c, e, g);
          UniformAfterDispatch(cfg, c, m, q, i);
          ScheduleFromFills(cfg, m, q, i + 1, choice);
          var n := ScheduleFrom(cfg, m, q, i + 1, choice);
          FullerTransitive(c, m, n);
          assert q[i].id in Ids(g);
          NoneLeftHere(cfg, q, i, c, n);
        }
      }
    }
  }

  lemma FullerRefl(cfg: Config, c: Cluster, q: seq<Task>)
    ensures Fuller(c, c) && NoneLeft(cfg, q, |q|, c)
  {}

  /** One round dispatches all it can: a task that stays in the queue is one whose group no
      live engine can take, even after the round. */
  lemma WorkConserving(cfg: Config, c: Cluster, choice: nat -> nat)
    requires ClusterInv(c) && OneGroupEach(cfg, c.queue)
    ensures var n := Schedule(cfg, c, choice);
            && NoneLeft(cfg, Ordered(cfg, c.queue), 0, n)
            && forall t :: t in n.queue <==> t in c.queue && t.id !in n.scheduled
  {
    hide EnginesInv, OneGroupEach, SortByDepth, DistinctIds, Ids, ById, ScheduleFrom, Uniform, NoneLeft, Fuller;
    var q := Ordered(cfg, c.queue);
    PermutationDistinct(c.queue, q);
    OrderedOneGroup(cfg, c.queue, q);
    InitiallyUniform(cfg, c, q);
    ScheduleFromFills(cfg, c, q, 0, choice);
    var m := ScheduleFrom(cfg, c, q, 0, choice);
    NoneLeftFrame(cfg, q, m, Schedule(cfg, c, choice));
    forall t ensures t in q <==> t in c.queue { assert t in multiset(q) <==> t in multiset(c.queue); }
  }

  lemma NoneLeftFrame(cfg: Config, q: seq<Task>, m: Cluster, n: Cluster)
    requires NoneLeft(cfg, q, 0, m) && n.engines == m.engines && n.live == m.live && n.scheduled == m.scheduled
    ensures NoneLeft(cfg, q, 0, n)
  {
    hide Group, EngineList;
  }

  // ---------- What availability means ----------

  /** The tokens of the tasks under a tokenizer, counted from the front. */
  ghost function PromptTokens(ts: seq<Task>, tokenizer: string): nat {
    if ts == [] then 0
    else (if tokenizer in ts[0].tokens then ts[0].tokens[tokenizer] else 0) + PromptTokens(ts[1..], tokenizer)
  }

  lemma {:induction false} PromptTokensSnoc(ts: seq<Task>, t: Task, tokenizer: string)
    ensures PromptTokens(ts + [t], tokenizer) ==
            PromptTokens(ts, tokenizer) + if tokenizer in t.tokens then t.tokens[tokenizer] else 0
  {
    if ts == [] {
      assert [] + [t] == [t] && [t][1..] == [];
    } else {
      PromptTokensSnoc(ts[1..], t, tokenizer);
      assert (ts + [t])[1..] == ts[1..] + [t];
    }
  }

  lemma {:induction false} TokenSumIs(en: Engine, ts: seq<Task>)
    ensures TokenSum(en, ts) == if en.modelType == TokenId then PromptTokens(ts, en.tokenizer) else 0
  {
    if ts != [] {
      var k := |ts| - 1;
      TokenSumIs(en, ts[..k]);
      assert ts == ts[..k] + [ts[k]];
      PromptTokensSnoc(ts[..k], ts[k], en.tokenizer);
    }
  }

  /** The engine has the task's model type, and its model is among the task's wishes if the
      task has any. */
  predicate Suits(en: Engine, t: Task) {
    t.modelType == en.modelType && (t.models == [] || en.model in t.models)
  }

  /** With exact books, an engine is available to a group if and only if it suits the first
      member, one more task is within every member's bound, the whole group is within the
      bound of every task the engine holds, and tasks and tokens stay within capacity. */
  lemma AvailableMeans(en: Engine, ts: seq<Task>)
    requires EngineOk(en) && ts != []
    ensures Available(en, ts) <==>
              && Suits(en, ts[0])
              && |en.residents| < 999999999 && |en.residents| + |ts| <= 9999999999
              && (forall i :: 0 <= i < |ts| ==> |en.residents| + 1 <= ts[i].bound)
              && (forall i :: 0 <= i < |en.residents| ==> |en.residents| + |ts| <= en.residents[i].bound)
              && |en.residents| + |ts| <= en.tasksCapacity
              && (en.modelType == TokenId ==>
                    PromptTokens(en.residents, en.tokenizer) + PromptTokens(ts, en.tokenizer) <= en.tokensCapacity)
  {
    hide TokenSum, PromptTokens, DistinctIds;
    TokenSumIs(en, ts);
    TokenSumIs(en, en.residents);
    BoundsAre(en, |ts|);
  }

  lemma BoundsAre(en: Engine, n: nat)
    requires BoundsOk(en.bounds, en.residents)
    ensures (forall t :: t in en.bounds ==> n + en.numTasks <= en.bounds[t]) <==>
              forall i :: 0 <= i < |en.residents| ==> n + en.numTasks <= en.residents[i].bound
  {
    if forall i :: 0 <= i < |en.residents| ==> n + en.numTasks <= en.residents[i].bound {
      forall t | t in en.bounds ensures n + en.numTasks <= en.bounds[t] {
        assert t in Ids(en.residents);
        var r :| r in en.residents && r.id == t;
        var i :| 0 <= i < |en.residents| && en.residents[i] == r;
      }
    } else {
      var i :| 0 <= i < |en.residents| && n + en.numTasks > en.residents[i].bound;
      assert en.residents[i].id in en.bounds;
    }
  }

  /** In every reachable state the books are the exact counts: residents, and on engines that
      take token ids the tokens of the residents under the engine's tokenizer. */
  lemma BooksExact(cfg: Config, c0: Cluster, steps: seq<Step>, c: Cluster, e: nat)
    requires Fresh(c0) && !(cfg.graphGroup && cfg.ctxGroup) && ClusterRuns(cfg, c0, steps, c) && e in c.engines
    ensures var en := c.engines[e];
            && en.numTasks == |en.residents| <= en.tasksCapacity
            && en.tokensNum == (if en.modelType == TokenId then PromptTokens(en.residents, en.tokenizer) else 0)
            && en.tokensNum <= en.tokensCapacity
  {
    hide TokenSum, PromptTokens, BoundsOk, DistinctIds;
    ClusterSafe(cfg, c0, steps, c);
    TokenSumIs(c.engines[e], c.engines[e].residents);
  }

  // ---------- Tasks run where they want to ----------

  ghost predicate AllSuit(c: Cluster) {
    forall e, i :: e in c.engines && 0 <= i < |c.engines[e].residents| ==>
        Suits(c.engines[e], c.engines[e].residents[i])
  }

  /** The availability check looks at the first member only, so a dispatch keeps every task on
      an engine that suits it if and only if the engine suits the other members too. */
  lemma DispatchSuitsIff(c: Cluster, e: nat, ts: seq<Task>)
    requires AllSuit(c) && e in c.engines && ts != [] && Available(c.engines[e], ts)
    ensures AllSuit(Dispatch(c, e, ts)) <==> forall i :: 1 <= i < |ts| ==> Suits(c.engines[e], ts[i])
  {
    var n := Dispatch(c, e, ts);
    var en := c.engines[e];
    AddTasksCounters(en, ts);
    if AllSuit(n) {
      forall i | 1 <= i < |ts| ensures Suits(en, ts[i]) {
        assert n.engines[e].residents[|en.residents| + i] == ts[i];
        assert Suits(n.engines[e], ts[i]);
      }
    }
  }

  /** It can fail: a task that wants another model, behind one with the same first variable,
      goes with it. */
  lemma ContextGroupMixesModels(cfg: Config, c: Cluster, e: nat, a: Task, b: Task, choice: nat -> nat)
    requires cfg.ctxGroup && !cfg.graphGroup && !cfg.appFifo && c.queue == [a, b] && c.live == [e] && e in c.engines
    requires a.id != b.id && a.id !in c.scheduled && b.id !in c.scheduled && a.firstVar == b.firstVar
    requires Available(c.engines[e], [a, b]) && !Suits(c.engines[e], b) && AllSuit(c)
    ensures !AllSuit(Schedule(cfg, c, choice))
  {
    var q, g := c.queue, [a, b];
    assert GroupFrom(q, a, 2, g, a.groups, false, true) == g;
    assert [a] + [b] == g;
    assert GroupFrom(q, a, 1, [a], a.groups, false, true) == g;
    assert Group(cfg, q, 0) == g;
    OnlyEngine(c, e, g, choice(0));
    var n := Dispatch(c, e, g);
    DispatchSuitsIff(c, e, g);
    assert g[1] == b;
    assert a.id in Ids(g) && b.id in Ids(g);
    assert ScheduleFrom(cfg, n, q, 2, choice) == n;
    assert ScheduleFrom(cfg, n, q, 1, choice) == n;
    assert ScheduleFrom(cfg, c, q, 0, choice) == n;
  }

  /** Tasks that belong together want the same. */
  ghost predicate Agree(cfg: Config, ts: seq<Task>) {
    forall a, b :: a in ts && b in ts && Together(cfg, a, b) ==> a.modelType == b.modelType && a.models == b.models
  }

  lemma GroupSuits(cfg: Config, q: seq<Task>, i: nat, en: Engine)
    requires i < |q| && DistinctIds(q) && Agree(cfg, q) && OneGroupEach(cfg, q) && Suits(en, q[i])
    ensures Group(cfg, q, i) != [] && Group(cfg, q, i)[0] == q[i]
    ensures forall k :: 0 <= k < |Group(cfg, q, i)| ==> Suits(en, Group(cfg, q, i)[k])
  {
    hide Group;
    GroupIsClass(cfg, q, i);
    MatesMembers(cfg, q, q[i], i + 1);
    var mates := Mates(cfg, q, q[i], i + 1);
    forall k | 0 <= k < |Group(cfg, q, i)| ensures Suits(en, Group(cfg, q, i)[k]) {
      if k > 0 {
        assert Group(cfg, q, i)[k] == mates[k - 1] && mates[k - 1] in mates;
        assert q[i] in q;
      }
    }
  }

  lemma {:induction false} ScheduleFromSuits(cfg: Config, c: Cluster, q: seq<Task>, i: nat, choice: nat -> nat)
    requires i <= |q| && DistinctIds(q) && Agree(cfg, q) && OneGroupEach(cfg, q) && AllSuit(c)
    ensures AllSuit(ScheduleFrom(cfg, c, q, i, choice))
    decreases |q| - i
  {
    hide Agree, OneGroupEach, AllSuit, AddTasks, Ids, Group, DistinctIds;
    if i < |q| {
      var g := Group(cfg, q, i);
      if q[i].id in c.scheduled || g == [] || EngineList(c.engines, c.live, g) == [] {
        ScheduleFromSuits(cfg, c, q, i + 1, choice);
      } else {
        var avail := EngineList(c.engines, c.live, g);
        var e := avail[choice(i) % |avail|];
        FirstOfGroup(cfg, q, i);
        GroupSuits(cfg, q, i, c.engines[e]);
        DispatchSuitsIff(c, e, g);
        ScheduleFromSuits(cfg, Dispatch(c, e, g), q, i + 1, choice);
      }
    }
  }

  lemma FirstOfGroup(cfg: Config, q: seq<Task>, i: nat)
    requires i < |q| && OneGroupEach(cfg, q)
    ensures Group(cfg, q, i) != [] && Group(cfg, q, i)[0] == q[i]
  {
    hide Group;
    GroupIsClass(cfg, q, i);
  }

  /** The tasks a run submitted. */
  ghost function Submitted(steps: seq<Step>): seq<Task> {
    if steps == [] then []
    else
      var st := steps[|steps| - 1];
      Submitted(steps[..|steps| - 1]) + if st.SubmitTask? then [st.t] else []
  }

  ghost predicate FromSubmitted(c: Cluster, steps: seq<Step>) {
    forall t :: t in c.queue ==> t in Submitted(steps)
  }

  /** In every reachable state every task is on an engine of its model type whose model is
      among its wishes, provided that submitted tasks that belong together want the same; with
      grouping off no two do. */
  lemma {:induction false} TasksRunWhereWanted(cfg: Config, c0: Cluster, steps: seq<Step>, c: Cluster)
    requires Fresh(c0) && !(cfg.graphGroup && cfg.ctxGroup) && ClusterRuns(cfg, c0, steps, c)
    requires Agree(cfg, Submitted(steps))
    ensures AllSuit(c) && FromSubmitted(c, steps)
    decreases |steps|
  {
    hide ClusterInv, OneGroupEach, AllSuit, After, Agree;
    if steps == [] {
      FreshSuits(c, steps);
    } else {
      var k := |steps| - 1;
      var r :| ClusterRuns(cfg, c0, steps[..k], r) && Allowed(cfg, r, steps[k]) && c == After(cfg, r, steps[k]);
      ClusterSafe(cfg, c0, steps[..k], r);
      AgreeLess(cfg, Submitted(steps[..k]), Submitted(steps));
      TasksRunWhereWanted(cfg, c0, steps[..k], r);
      AgreeLess(cfg, r.queue, Submitted(steps));
      StepSuits(cfg, r, steps[k]);
    }
  }

  lemma FreshSuits(c: Cluster, steps: seq<Step>)
    requires Fresh(c)
    ensures AllSuit(c) && FromSubmitted(c, steps)
  {}

  lemma AgreeLess(cfg: Config, a: seq<Task>, b: seq<Task>)
    requires Agree(cfg, b) && forall t :: t in a ==> t in b
    ensures Agree(cfg, a)
  {}

  lemma StepSuits(cfg: Config, c: Cluster, st: Step)
    requires ClusterInv(c) && OneGroupEach(cfg, c.queue) && Allowed(cfg, c, st) && AllSuit(c) && Agree(cfg, c.queue)
    ensures AllSuit(After(cfg, c, st))
    ensures forall t :: t in After(cfg, c, st).queue ==> t in c.queue || (st.SubmitTask? && t == st.t)
  {
    match st
    case SubmitTask(t) => SubmitSuits(cfg, c, t);
    case Round(choice) => RoundSuits(cfg, c, choice);
    case Free(e, t) => FreeSuits(c, e, t);
  }

  lemma SubmitSuits(cfg: Config, c: Cluster, t: Task)
    requires AllSuit(c)
    ensures AllSuit(After(cfg, c, Step.SubmitTask(t)))
    ensures forall u :: u in After(cfg, c, Step.SubmitTask(t)).queue ==> u in c.queue || u == t
  {}

  lemma RoundSuits(cfg: Config, c: Cluster, choice: nat -> nat)
    requires ClusterInv(c) && OneGroupEach(cfg, c.queue) && AllSuit(c) && Agree(cfg, c.queue)
    ensures AllSuit(Schedule(cfg, c, choice))
    ensures forall t :: t in Schedule(cfg, c, choice).queue ==> t in c.queue
  {
    hide EnginesInv, OneGroupEach, SortByDepth, ScheduleFrom, Agree, DistinctIds, Ids;
    var q := Ordered(cfg, c.queue);
    PermutationDistinct(c.queue, q);
    forall t ensures t in q <==> t in c.queue { assert t in multiset(q) <==> t in multiset(c.queue); }
    AgreeLess(cfg, q, c.queue);
    OrderedOneGroup(cfg, c.queue, q);
    ScheduleFromSuits(cfg, c, q, 0, choice);
  }

  lemma FreeSuits(c: Cluster, e: nat, t: Task)
    requires AllSuit(c) && e in c.engines
    ensures FreeTask(c, e, t).Ok? ==> AllSuit(FreeTask(c, e, t).value) && FreeTask(c, e, t).value.queue == c.queue
  {
    if FreeTask(c, e, t).Ok? {
      var n := FreeTask(c, e, t).value;
      forall i | 0 <= i < |n.engines[e].residents| ensures Suits(n.engines[e], n.engines[e].residents[i]) {
        StaysIn(c.engines[e].residents, t, i);
      }
    }
  }

  lemma {:induction false} StaysIn(ts: seq<Task>, t: Task, i: nat)
    requires i < |Remove(ts, t)|
    ensures Remove(ts, t)[i] in ts
    decreases |ts|
  {
    if ts[0] != t && i > 0 { StaysIn(ts[1..], t, i - 1); }
  }

  // ---------- The order of the queue ----------

  ghost predicate DeepestFirst(q: seq<Task>) {
    forall i, j :: 0 <= i < j < |q| ==> q[i].depth >= q[j].depth
  }

  ghost function AtDepth(q: seq<Task>, d: int): seq<Task> {
    if q == [] then []
    else AtDepth(q[..|q| - 1], d) + if q[|q| - 1].depth == d then [q[|q| - 1]] else []
  }

  lemma AtDepthSnoc(q: seq<Task>, t: Task, d: int)
    ensures AtDepth(q + [t], d) == AtDepth(q, d) + if t.depth == d then [t] else []
  {
    assert (q + [t])[..|q|] == q;
  }

  lemma {:induction false} InsertedDeepestFirst(q: seq<Task>, t: Task)
    requires DeepestFirst(q)
    ensures DeepestFirst(InsertByDepth(q, t))
  {
    if q != [] && q[|q| - 1].depth < t.depth {
      var k := |q| - 1;
      var less, x := q[..k], q[k];
      InsertedDeepestFirst(less, t);
      var r := InsertByDepth(less, t);
      forall i | 0 <= i < |r| ensures r[i].depth >= x.depth { InsertedFrom(less, t, i); }
    }
  }

  lemma InsertedFrom(q: seq<Task>, t: Task, i: nat)
    requires i < |InsertByDepth(q, t)|
    ensures InsertByDepth(q, t)[i] == t || InsertByDepth(q, t)[i] in q
  {
    hide InsertByDepth;
    assert InsertByDepth(q, t)[i] in multiset(InsertByDepth(q, t));
  }

  lemma {:induction false} InsertedAtDepth(q: seq<Task>, t: Task, d: int)
    requires DeepestFirst(q)
    ensures AtDepth(InsertByDepth(q, t), d) == AtDepth(q, d) + if t.depth == d then [t] else []
  {
    hide AtDepth;
    if q == [] || q[|q| - 1].depth >= t.depth {
      AtDepthSnoc(q, t, d);
    } else {
      var k := |q| - 1;
      assert q == q[..k] + [q[k]];
      InsertedAtDepth(q[..k], t, d);
      AtDepthSnoc(InsertByDepth(q[..k], t), q[k], d);
      AtDepthSnoc(q[..k], q[k], d);
    }
  }

  /** With the application order on, the queue is served from the deepest task down, and
      tasks of one depth in the order in which they were queued. */
  lemma {:induction false} SortedByDepth(q: seq<Task>, d: int)
    ensures DeepestFirst(SortByDepth(q))
    ensures AtDepth(SortByDepth(q), d) == AtDepth(q, d)
  {
    if q != [] {
      var k := |q| - 1;
      SortedByDepth(q[..k], d);
      InsertedDeepestFirst(SortByDepth(q[..k]), q[k]);
      InsertedAtDepth(SortByDepth(q[..k]), q[k], d);
    }
  }

  /** a is what b has at the increasing positions `at`. */
  ghost predicate PartOf(a: seq<Task>, b: seq<Task>, at: seq<nat>) {
    && |at| == |a|
    && (forall i :: 0 <= i < |at| ==> at[i] < |b| && b[at[i]] == a[i])
    && (forall i, j :: 0 <= i < j < |at| ==> at[i] < at[j])
  }

  lemma {:induction false} ByIdPart(ts: seq<Task>, scheduled: set<nat>, keep: bool) returns (at: seq<nat>)
    ensures PartOf(ById(ts, scheduled, keep), ts, at)
  {
    at := [];
    if ts != [] {
      var k := |ts| - 1;
      at := ByIdPart(ts[..k], scheduled, keep);
      if (ts[k].id in scheduled) == keep { at := at + [k]; }
    }
  }

  lemma PartOfPart(a: seq<Task>, b: seq<Task>, c: seq<Task>, x: seq<nat>, y: seq<nat>) returns (at: seq<nat>)
    requires PartOf(a, b, x) && PartOf(b, c, y)
    ensures PartOf(a, c, at)
  {
    at := seq(|x|, i requires 0 <= i < |x| => y[x[i]]);
  }

  /** With the application order off, the queue is in every reachable state a part of what was
      submitted, in the order in which it was submitted. */
  lemma {:induction false} QueueInOrder(cfg: Config, c0: Cluster, steps: seq<Step>, c: Cluster) returns (at: seq<nat>)
    requires c0.queue == [] && !cfg.appFifo && ClusterRuns(cfg, c0, steps, c)
    ensures PartOf(c.queue, Submitted(steps), at)
    decreases |steps|
  {
    hide ScheduleFrom, PartOf, ById;
    at := [];
    if steps == [] {
      NoPart();
    } else {
      var k := |steps| - 1;
      var r :| ClusterRuns(cfg, c0, steps[..k], r) && Allowed(cfg, r, steps[k]) && c == After(cfg, r, steps[k]);
      var before := QueueInOrder(cfg, c0, steps[..k], r);
      var all := Submitted(steps[..k]);
      match steps[k]
      case SubmitTask(t) =>
        at := if |r.queue| >= cfg.maxQueue then before else before + [|all|];
        PartSnoc(r.queue, all, before, t);
      case Round(choice) =>
        var kept := ByIdPart(r.queue, c.scheduled, false);
        at := PartOfPart(c.queue, r.queue, all, kept, before);
        assert all + [] == all;
      case Free(_, _) =>
        at := before;
        assert all + [] == all;
    }
  }

  lemma NoPart()
    ensures PartOf([], [], [])
  {}

  lemma PartSnoc(a: seq<Task>, b: seq<Task>, at: seq<nat>, t: Task)
    requires PartOf(a, b, at)
    ensures PartOf(a, b + [t], at) && PartOf(a + [t], b + [t], at + [|b|])
  {}

  // ---------- No task is lost ----------

  /** Some step submitted the task while the queue had room. */
  ghost predicate TakenIn(cfg: Config, c0: Cluster, steps: seq<Step>, t: Task) {
    exists i: nat :: TakenAt(cfg, c0, steps, i, t)
  }

  ghost predicate TakenAt(cfg: Config, c0: Cluster, steps: seq<Step>, i: nat, t: Task) {
    && i < |steps| && steps[i] == SubmitTask(t)
    && exists r :: ClusterRuns(cfg, c0, steps[..i], r) && |r.queue| < cfg.maxQueue
  }

  lemma {:induction false} ClusterDeterministic(cfg: Config, c0: Cluster, steps: seq<Step>, a: Cluster, b: Cluster)
    requires ClusterRuns(cfg, c0, steps, a) && ClusterRuns(cfg, c0, steps, b)
    ensures a == b
    decreases |steps|
  {
    hide After, Allowed;
    if steps != [] {
      var k := |steps| - 1;
      var p :| ClusterRuns(cfg, c0, steps[..k], p) && Allowed(cfg, p, steps[k]) && a == After(cfg, p, steps[k]);
      var q :| ClusterRuns(cfg, c0, steps[..k], q) && Allowed(cfg, q, steps[k]) && b == After(cfg, q, steps[k]);
      ClusterDeterministic(cfg, c0, steps[..k], p, q);
    }
  }

  lemma TakenSoFar(cfg: Config, c0: Cluster, steps: seq<Step>, k: nat, r: Cluster, t: Task)
    requires |steps| == k + 1 && ClusterRuns(cfg, c0, steps[..k], r)
    ensures TakenIn(cfg, c0, steps, t) <==>
              TakenIn(cfg, c0, steps[..k], t) || (steps[k] == SubmitTask(t) && |r.queue| < cfg.maxQueue)
  {
    hide ClusterRuns;
    var p := steps[..k];
    forall i: nat | i < k ensures TakenAt(cfg, c0, p, i, t) <==> TakenAt(cfg, c0, steps, i, t) {
      assert p[..i] == steps[..i];
    }
    if TakenAt(cfg, c0, steps, k, t) {
      var q :| ClusterRuns(cfg, c0, steps[..k], q) && |q.queue| < cfg.maxQueue;
      ClusterDeterministic(cfg, c0, steps[..k], q, r);
    }
    if i: nat :| TakenAt(cfg, c0, steps, i, t) { assert i < k ==> TakenAt(cfg, c0, p, i, t); }
    if i: nat :| TakenAt(cfg, c0, p, i, t) { assert TakenAt(cfg, c0, steps, i, t); }
    if steps[k] == SubmitTask(t) && |r.queue| < cfg.maxQueue { assert TakenAt(cfg, c0, steps, k, t); }
  }

  /** Over every run: the queue holds exactly the tasks that were submitted while it had room
      and were not dispatched. */
  lemma {:induction false} NothingLost(cfg: Config, c0: Cluster, steps: seq<Step>, c: Cluster, t: Task)
    requires Fresh(c0) && !(cfg.graphGroup && cfg.ctxGroup) && ClusterRuns(cfg, c0, steps, c)
    ensures t in c.queue <==> TakenIn(cfg, c0, steps, t) && t.id !in c.scheduled
    decreases |steps|
  {
    hide ClusterInv, OneGroupEach, After, TakenIn;
    if steps == [] {
      NothingTaken(cfg, c0, t);
    } else {
      var k := |steps| - 1;
      var r :| ClusterRuns(cfg, c0, steps[..k], r) && Allowed(cfg, r, steps[k]) && c == After(cfg, r, steps[k]);
      ClusterSafe(cfg, c0, steps[..k], r);
      NothingLost(cfg, c0, steps[..k], r, t);
      TakenSoFar(cfg, c0, steps, k, r, t);
      StepQueue(cfg, r, steps[k], t);
    }
  }

  lemma NothingTaken(cfg: Config, c0: Cluster, t: Task)
    ensures !TakenIn(cfg, c0, [], t)
  {}

  /** What a step does to one task's place in the queue. */
  lemma StepQueue(cfg: Config, c: Cluster, st: Step, t: Task)
    requires ClusterInv(c) && OneGroupEach(cfg, c.queue) && Allowed(cfg, c, st)
    ensures var n := After(cfg, c, st);
            && c.scheduled <= n.scheduled
            && (t in n.queue <==>
                 t.id !in n.scheduled && (t in c.queue || (st == SubmitTask(t) && |c.queue| < cfg.maxQueue)))
  {
    hide EnginesInv, OneGroupEach, Ids, DistinctIds;
    forall u | u in c.queue ensures u.id !in c.scheduled { QueuedNotScheduled(c, u); }
    match st
    case SubmitTask(_) =>
    case Round(choice) =>
      WorkConserving(cfg, c, choice);
      RoundGrows(cfg, c, choice);
    case Free(_, _) =>
  }

  lemma QueuedNotScheduled(c: Cluster, t: Task)
    requires Ids(c.queue) !! c.scheduled && t in c.queue
    ensures t.id !in c.scheduled
  {
    assert t.id in Ids(c.queue);
  }

  lemma RoundGrows(cfg: Config, c: Cluster, choice: nat -> nat)
    ensures c.scheduled <= Schedule(cfg, c, choice).scheduled
  {
    ScheduledGrows(cfg, c, Ordered(cfg, c.queue), 0, choice);
  }

  lemma {:induction false} ScheduledGrows(cfg: Config, c: Cluster, q: seq<Task>, i: nat, choice: nat -> nat)
    requires i <= |q|
    ensures c.scheduled <= ScheduleFrom(cfg, c, q, i, choice).scheduled
    decreases |q| - i
  {
    hide Group, Ids, AddTasks, EngineList;
    if i < |q| {
      ScheduledGrows(cfg, c, q, i + 1, choice);
      var g := Group(cfg, q, i);
      if g != [] && EngineList(c.engines, c.live, g) != [] {
        var avail := EngineList(c.engines, c.live, g);
        ScheduledGrows(cfg, Dispatch(c, avail[choice(i) % |avail|], g), q, i + 1, choice);
      }
    }
  }

  // ---------- What a group is, whatever the groups of its chains ----------

  /** The chain groups that all the tasks have in common. */
  ghost function Common(ts: seq<Task>): set<nat>
    requires ts != []
  {
    if |ts| == 1 then ts[0].groups else Common(ts[..|ts| - 1]) * ts[|ts| - 1].groups
  }

  /** The first two members are together because of a chain group. */
  ghost predicate ByGraph(cfg: Config, cur: seq<Task>) {
    cfg.graphGroup && |cur| > 1 && cur[0].groups * cur[1].groups != {}
  }

  /** Whether the group takes one more task: one that shares a chain group with all its
      members, or its first variable.  What brought the second member decides which of the
      two goes on. */
  ghost predicate Joins(cfg: Config, cur: seq<Task>, t: Task)
    requires cur != []
  {
    || (cfg.graphGroup && (|cur| == 1 || ByGraph(cfg, cur)) && Common(cur) * t.groups != {})
    || (cfg.ctxGroup && (|cur| == 1 || !ByGraph(cfg, cur)) && cur[0].firstVar == t.firstVar)
  }

  ghost function Greedy(cfg: Config, q: seq<Task>, j: nat, cur: seq<Task>): seq<Task>
    requires cur != [] && j <= |q|
    decreases |q| - j
  {
    if j == |q| then cur else Greedy(cfg, q, j + 1, if Joins(cfg, cur, q[j]) then cur + [q[j]] else cur)
  }

  ghost predicate GroupState(cfg: Config, task: Task, cur: seq<Task>, common: set<nat>, graph: bool, ctx: bool) {
    && cur != [] && cur[0] == task
    && graph == (cfg.graphGroup && (|cur| == 1 || ByGraph(cfg, cur)))
    && ctx == (cfg.ctxGroup && (|cur| == 1 || !ByGraph(cfg, cur)))
    && (graph ==> common == Common(cur))
  }

  lemma StateJoins(cfg: Config, task: Task, cur: seq<Task>, common: set<nat>, graph: bool, ctx: bool, t: Task)
    requires GroupState(cfg, task, cur, common, graph, ctx)
    ensures graph && common * t.groups != {} ==>
              Joins(cfg, cur, t) && GroupState(cfg, task, cur + [t], common * t.groups, graph, false)
    ensures !(graph && common * t.groups != {}) && ctx && task.firstVar == t.firstVar ==>
              Joins(cfg, cur, t) && GroupState(cfg, task, cur + [t], common, false, ctx)
    ensures !(graph && common * t.groups != {}) && !(ctx && task.firstVar == t.firstVar) ==> !Joins(cfg, cur, t)
  {
    assert (cur + [t])[..|cur|] == cur;
  }

  lemma {:induction false} GroupFromIsGreedy(
      cfg: Config, q: seq<Task>, task: Task, j: nat, cur: seq<Task>, common: set<nat>, graph: bool, ctx: bool)
    requires j <= |q| && GroupState(cfg, task, cur, common, graph, ctx)
    ensures GroupFrom(q, task, j, cur, common, graph, ctx) == Greedy(cfg, q, j, cur)
    decreases |q| - j
  {
    hide GroupState, Joins;
    StateIs(cfg, task, cur, common, graph, ctx);
    if j < |q| {
      StateJoins(cfg, task, cur, common, graph, ctx, q[j]);
      var shared := common * q[j].groups;
      if graph && shared != {} {
        GroupFromIsGreedy(cfg, q, task, j + 1, cur + [q[j]], shared, graph, false);
      } else if ctx && task.firstVar == q[j].firstVar {
        GroupFromIsGreedy(cfg, q, task, j + 1, cur + [q[j]], common, false, ctx);
      } else {
        GroupFromIsGreedy(cfg, q, task, j + 1, cur, common, graph, ctx);
      }
    }
  }

  lemma StateIs(cfg: Config, task: Task, cur: seq<Task>, common: set<nat>, graph: bool, ctx: bool)
    requires GroupState(cfg, task, cur, common, graph, ctx)
    ensures cur != []
  {}

  /** For tasks in any number of chain groups, and with both kinds of grouping on or off: the
      flags and the shrinking set of the loop compute the greedy group. */
  lemma GroupIsGreedy(cfg: Config, q: seq<Task>, i: nat)
    requires i < |q|
    ensures Group(cfg, q, i) == if cfg.graphGroup || cfg.ctxGroup then Greedy(cfg, q, i + 1, [q[i]]) else [q[i]]
  {
    hide GroupFrom, Greedy;
    if cfg.graphGroup || cfg.ctxGroup {
      GroupFromIsGreedy(cfg, q, q[i], i + 1, [q[i]], q[i].groups, cfg.graphGroup, cfg.ctxGroup);
    }
  }
}
