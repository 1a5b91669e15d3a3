/** `GlobalScheduler` as the object it is; each loop is proved against
    `ClusterScheduling`. */
module GlobalSchedulerObject {
  import opened Wrappers
  import opened ClusterScheduling
  import opened ClusterProgress

  class GlobalScheduler {
    const config: Config
    const live: seq<nat>
    var queue: seq<Task>
    var engines: map<nat, Engine>
    var scheduled: set<nat>

    function View(): Cluster
      reads this
    {
      Cluster(queue, live, engines, scheduled)
    }

    constructor (config: Config, live: seq<nat>, engines: map<nat, Engine>)
      ensures View() == Cluster([], live, engines, {}) && this.config == config
    {
      this.config, this.live, this.engines := config, live, engines;
      queue, scheduled := [], {};
    }

    /** `submit_task`: a new task joins a queue of undispatched tasks, or is turned away
        from a full one. */
    method SubmitTask(t: Task) returns (ok: bool)
      modifies this`queue
      ensures match Submit(config, old(View()), t)
              case Ok(n) => ok && View() == n
              case Raised => !ok && View() == old(View())
      ensures old(ClusterInv(View()) && OneGroupEach(config, queue) && Allowed(config, View(), Step.SubmitTask(t))) ==>
                ClusterInv(View()) && OneGroupEach(config, queue)
    {
      ghost var before := View();
      if |queue| >= config.maxQueue { return false; }
      queue := queue + [t];
      if ClusterInv(before) && OneGroupEach(config, before.queue) && Allowed(config, before, Step.SubmitTask(t)) {
        SubmitKeeps(config, before, t);
      }
      return true;
    }

    /** `_get_engine_list`. */
    method AvailableEngines(ts: seq<Task>) returns (r: seq<nat>)
      requires ts != []
      ensures r == EngineList(engines, live, ts)
      ensures forall i :: 0 <= i < |live| && Usable(engines, live, ts, i) ==> live[i] in r
      ensures forall e :: e in r ==> e in engines && Available(engines[e], ts)
    {
      r := [];
      var i := 0;
      while i < |live|
        invariant 0 <= i <= |live|
        invariant r + EngineList(engines, live[i..], ts) == EngineList(engines, live, ts)
      {
        assert live[i..][1..] == live[i + 1..];
        if live[i] in engines && Available(engines[live[i]], ts) { r := r + [live[i]]; }
        i := i + 1;
      }
      ghost var at := EngineListExact(engines, live, ts);
    }

    /** `_find_engine`, with the choice among the available engines left open. */
    method FindEngine(ts: seq<Task>, pick: nat)
      requires ts != []
      modifies this`engines, this`scheduled
      ensures var avail := EngineList(old(engines), live, ts);
              View() == if avail == [] then old(View()) else Dispatch(old(View()), avail[pick % |avail|], ts)
    {
      hide Available, EngineList, Usable, Ids;
      var avail := AvailableEngines(ts);
      if avail == [] { return; }
      var e := avail[pick % |avail|];
      ghost var before := engines[e];
      var i := 0;
      assert ts[..0] == [];
      EmptyIds();
      while i < |ts|
        invariant 0 <= i <= |ts|
        invariant engines == old(engines)[e := AddTasks(before, ts[..i])]
        invariant scheduled == old(scheduled) + Ids(ts[..i])
      {
        assert ts[..i + 1] == ts[..i] + [ts[i]];
        IdsSnoc(ts[..i], ts[i]);
        engines := engines[e := AddTask(engines[e], ts[i])];
        scheduled := scheduled + {ts[i].id};
        i := i + 1;
      }
      assert ts[..i] == ts;
    }

    /** The inner loop of `schedule`. */
    method BuildGroup(q: seq<Task>, i: nat) returns (group: seq<Task>)
      requires i < |q|
      ensures group == Group(config, q, i) && group != []
    {
      group := [q[i]];
      if config.graphGroup || config.ctxGroup {
        var common := q[i].groups;
        var graph, ctx := config.graphGroup, config.ctxGroup;
        var j := i + 1;
        while j < |q|
          invariant i + 1 <= j <= |q| && group != []
          invariant GroupFrom(q, q[i], j, group, common, graph, ctx) == Group(config, q, i)
        {
          if graph {
            var shared := common * q[j].groups;
            if shared != {} {
              group, common, ctx := group + [q[j]], shared, false;
            }
          }
          if ctx && q[i].firstVar == q[j].firstVar {
            group, graph := group + [q[j]], false;
          }
          j := j + 1;
        }
      }
    }

    /** `schedule`: one pass over the queue, then the dispatched tasks leave it.  A task that
        stays is one whose group no live engine can take, even after the pass. */
    method Schedule(choice: nat -> nat)
      modifies this
      ensures View() == ClusterScheduling.Schedule(config, old(View()), choice)
      ensures old(ClusterInv(View()) && OneGroupEach(config, queue)) ==>
                ClusterInv(View()) && NoneLeft(config, Ordered(config, old(queue)), 0, View())
    {
      hide ClusterInv, OneGroupEach, NoneLeft;
      ghost var before := View();
      if ClusterInv(before) && OneGroupEach(config, before.queue) {
        WorkConserving(config, before, choice);
        ScheduleKeeps(config, before, choice);
      }
      if config.appFifo { queue := SortByDepth(queue); }
      var q := queue;
      var i := 0;
      while i < |q|
        invariant 0 <= i <= |q| && q == Ordered(config, old(queue))
        invariant ScheduleFrom(config, View().(queue := old(queue)), q, i, choice) ==
                  ScheduleFrom(config, old(View()), q, 0, choice)
      {
        if q[i].id !in scheduled {
          var group := BuildGroup(q, i);
          FindEngine(group, choice(i));
        }
        i := i + 1;
      }
      queue := ById(q, scheduled, false);
    }

    /** `free_task` of a dispatched task: always succeeds, and keeps every engine's books
        and their isolation. */
    method FreeTask(e: nat, t: Task) returns (ok: bool)
      modifies this`engines
      ensures match ClusterScheduling.FreeTask(old(View()), e, t)
              case Ok(n) => ok && View() == n
              case Raised => !ok && View() == old(View())
      ensures old(ClusterInv(View()) && e in engines && t in engines[e].residents) ==>
                ok && ClusterInv(View()) && (old(AllIsolated(View())) ==> AllIsolated(View()))
    {
      hide ClusterInv, AllIsolated;
      ghost var before := View();
      if ClusterInv(before) && e in engines && t in engines[e].residents { FreeKeeps(before, e, t); }
      if e !in engines || t.id !in engines[e].bounds { return false; }
      var en := engines[e];
      en := en.(numTasks := en.numTasks - 1);
      en := en.(bounds := en.bounds - {t.id});
      en := en.(tokensNum := en.tokensNum - TokensOn(en, t));
      en := en.(residents := Remove(en.residents, t));
      engines := engines[e := en];
      return true;
    }
  }
}
