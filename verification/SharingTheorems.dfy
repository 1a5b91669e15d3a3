/** What prefix sharing promises, for every interleaving of every set of tasks. */
module SharingTheorems {
  import opened Wrappers
  import opened ServeContexts
  import opened Execution

  // ---------- Sharing preserves meaning ----------

  /** `ids` is the parent chain of `c` on its engine, from the root down to `c`. */
  ghost predicate IsChain(backend: map<nat, Remote>, ids: seq<nat>, c: nat) {
    && ids != [] && ids[|ids| - 1] == c
    && (forall i :: 0 <= i < |ids| ==> ids[i] in backend)
    && backend[ids[0]].parent == None
    && (forall i :: 0 < i < |ids| ==> backend[ids[i]].parent == Some(ids[i - 1]))
  }

  ghost function Texts(backend: map<nat, Remote>, ids: seq<nat>): string
    requires forall i :: 0 <= i < |ids| ==> ids[i] in backend
  {
    if ids == [] then "" else Texts(backend, ids[..|ids| - 1]) + backend[ids[|ids| - 1]].text
  }

  /** What a task would have filled on its own: its Fill variables, in order. */
  ghost function Prompt(contents: map<VarId, string>, fills: seq<VarId>): string
    requires forall i :: 0 <= i < |fills| ==> fills[i] in contents
  {
    if fills == [] then "" else Prompt(contents, fills[..|fills| - 1]) + contents[fills[|fills| - 1]]
  }

  lemma {:induction false} ChainUnique(backend: map<nat, Remote>, a: seq<nat>, b: seq<nat>, c: nat)
    requires IsChain(backend, a, c) && IsChain(backend, b, c)
    ensures a == b
    decreases |a|
  {
    var m, n := |a| - 1, |b| - 1;
    assert m > 0 ==> backend[a[m]].parent == Some(a[m - 1]);
    assert n > 0 ==> backend[b[n]].parent == Some(b[n - 1]);
    if m == 0 {
      assert a == [c] && b == [c];
    } else {
      ChainUnique(backend, a[..m], b[..n], a[m - 1]);
      assert a == a[..m] + [c] && b == b[..n] + [c];
    }
  }

  lemma HeldRemote(s: System, t: nat, i: nat)
    requires SysInv(s) && t in s.holds && i < s.execs[t].next && i < |s.holds[t].held|
    ensures s.holds[t].held[i] in s.mgr.backend
    ensures s.mgr.backend[s.holds[t].held[i]].parent == if i == 0 then None else Some(s.holds[t].held[i - 1])
  {
    hide Inv, TextInv, OwnedInv, ExclusiveInv;
    assert ExecOk(s, t);
    HeldLive(s.mgr, s.holds, s.contents.Keys, t, i);
    BackendParent(s.mgr, s.holds, s.contents.Keys, s.holds[t].held[i]);
  }

  lemma HeldIsChain(s: System, t: nat, k: nat)
    requires SysInv(s) && t in s.holds && 0 < k <= s.execs[t].next && k <= |s.holds[t].held|
    ensures IsChain(s.mgr.backend, s.holds[t].held[..k], s.holds[t].held[k - 1])
  {
    hide SysInv;
    HeldRemote(s, t, 0);
    forall i | 0 <= i < k
      ensures s.holds[t].held[i] in s.mgr.backend
      ensures i > 0 ==> s.mgr.backend[s.holds[t].held[i]].parent == Some(s.holds[t].held[i - 1])
    {
      HeldRemote(s, t, i);
    }
  }

  lemma HeldText(s: System, t: nat, i: nat)
    requires SysInv(s) && t in s.holds && i < s.execs[t].next && i < |s.holds[t].chain.fills|
    ensures i < |s.holds[t].held| && s.holds[t].held[i] in s.mgr.backend && s.holds[t].chain.fills[i] in s.contents
    ensures s.mgr.backend[s.holds[t].held[i]].text == s.contents[s.holds[t].chain.fills[i]]
  {
    hide Inv, OwnedInv, ExclusiveInv;
    var h := s.holds[t];
    assert ExecOk(s, t);
    HeldLive(s.mgr, s.holds, s.contents.Keys, t, i);
    assert TextOk(s, h.held[i], h.chain.fills[..i + 1]);
    assert h.chain.fills[..i + 1][i] == h.chain.fills[i];
  }

  lemma {:induction false} TextsArePrompt(s: System, t: nat, k: nat)
    requires SysInv(s) && t in s.holds && k <= s.execs[t].next && k <= |s.holds[t].chain.fills| < |s.holds[t].held|
    ensures forall i :: 0 <= i < k ==> s.holds[t].held[i] in s.mgr.backend && s.holds[t].chain.fills[i] in s.contents
    ensures Texts(s.mgr.backend, s.holds[t].held[..k]) == Prompt(s.contents, s.holds[t].chain.fills[..k])
  {
    hide SysInv;
    if k > 0 {
      TextsArePrompt(s, t, k - 1);
      HeldText(s, t, k - 1);
      assert s.holds[t].held[..k][..k - 1] == s.holds[t].held[..k - 1];
      assert s.holds[t].chain.fills[..k][..k - 1] == s.holds[t].chain.fills[..k - 1];
    }
  }

  lemma TaskShape(s: System, t: nat)
    requires SysInv(s) && t in s.holds
    ensures t in s.execs && |s.holds[t].held| == |s.holds[t].chain.fills| + 1 && s.holds[t].chain.fills != []
  {
    hide Inv;
    assert ExecOk(s, t);
    HeldLive(s.mgr, s.holds, s.contents.Keys, t, 0);
  }

  /** In every interleaving, once a task is at its Gen node, the parent chain of the Gen
      context exists on the engine, is unique, and concatenates to exactly the task's own
      prompt, whichever of its contexts were shared and whoever filled them. */
  lemma SharingPreservesMeaning(engines: set<nat>, steps: seq<Step>, s: System, t: nat)
    requires Runs(Init(engines), steps, s) && t in s.holds && t in s.execs
    requires s.execs[t].next >= |s.holds[t].chain.fills|
    ensures var h := s.holds[t];
            var n := |h.chain.fills|;
            && |h.held| == n + 1 && n > 0
            && h.held[n] in s.mgr.contexts && s.mgr.contexts[h.held[n]].parent == Some(h.held[n - 1])
            && (forall i :: 0 <= i < n ==> h.chain.fills[i] in s.contents)
            && IsChain(s.mgr.backend, h.held[..n], h.held[n - 1])
            && (forall ids :: IsChain(s.mgr.backend, ids, h.held[n - 1]) ==>
                  Texts(s.mgr.backend, ids) == Prompt(s.contents, h.chain.fills))
  {
    hide SysInv;
    RunsKeep(engines, steps, s);
    TaskShape(s, t);
    var h := s.holds[t];
    var n := |h.chain.fills|;
    HeldIsChain(s, t, n);
    TextsArePrompt(s, t, n);
    assert h.chain.fills[..n] == h.chain.fills;
    GenParent(s, t);
    forall ids | IsChain(s.mgr.backend, ids, h.held[n - 1])
      ensures Texts(s.mgr.backend, ids) == Prompt(s.contents, h.chain.fills)
    {
      ChainUnique(s.mgr.backend, ids, h.held[..n], h.held[n - 1]);
    }
  }

  lemma GenParent(s: System, t: nat)
    requires SysInv(s) && t in s.holds
    ensures var h := s.holds[t]; var n := |h.chain.fills|;
            && n > 0 && |h.held| == n + 1
            && h.held[n] in s.mgr.contexts && s.mgr.contexts[h.held[n]].parent == Some(h.held[n - 1])
  {
    hide Inv;
    TaskShape(s, t);
    HeldLive(s.mgr, s.holds, s.contents.Keys, t, |s.holds[t].chain.fills|);
  }

  // ---------- The prefix cache ----------

  /** In every reachable state each engine's cache is prefix-closed, injective and live. */
  lemma CachePrefixClosed(engines: set<nat>, steps: seq<Step>, s: System, e: nat, p: Path, k: nat)
    requires Runs(Init(engines), steps, s)
    requires e in s.mgr.caches && p in s.mgr.caches[e].fwd && 0 < k <= |p|
    ensures p[..k] in s.mgr.caches[e].fwd
    ensures var c := s.mgr.caches[e].fwd[p[..k]];
            && c in s.mgr.contexts && s.mgr.contexts[c].engine == e
            && (k == 1 ==> s.mgr.contexts[c].parent == None)
            && (k > 1 ==>
                  && p[..k - 1] in s.mgr.caches[e].fwd
                  && s.mgr.contexts[c].parent == Some(s.mgr.caches[e].fwd[p[..k - 1]]))
            && (forall q :: q in s.mgr.caches[e].fwd && s.mgr.caches[e].fwd[q] == c ==> q == p[..k])
  {
    hide SysInv;
    RunsKeep(engines, steps, s);
    CacheOf(s);
    PrefixCached(s.mgr, s.contents.Keys, e, p, k);
  }

  lemma CacheOf(s: System)
    requires SysInv(s)
    ensures CacheInv(s.mgr, s.contents.Keys)
  {}

  lemma {:induction false} PrefixCached(m: Manager, known: set<VarId>, e: nat, p: Path, k: nat)
    requires CacheInv(m, known) && e in m.caches && p in m.caches[e].fwd && 0 < k <= |p|
    ensures p[..k] in m.caches[e].fwd
    ensures var c := m.caches[e].fwd[p[..k]];
            && c in m.contexts && m.contexts[c].engine == e
            && (k > 1 ==> p[..k - 1] in m.caches[e].fwd)
            && m.contexts[c].parent == (if k == 1 then None else Some(m.caches[e].fwd[p[..k - 1]]))
            && (forall q :: q in m.caches[e].fwd && m.caches[e].fwd[q] == c ==> q == p[..k])
    decreases |p| - k
  {
    if k == |p| {
      assert p[..k] == p;
    } else {
      PrefixCached(m, known, e, p, k + 1);
      assert p[..k + 1][..k] == p[..k];
    }
    assert EntryOk(m, e, known, p[..k]);
    assert k > 1 ==> Front(p[..k]) == p[..k - 1];
    forall q | q in m.caches[e].fwd && m.caches[e].fwd[q] == m.caches[e].fwd[p[..k]] ensures q == p[..k] {
      assert EntryOk(m, e, known, q);
    }
  }

  // ---------- Reference counts ----------

  /** In every reachable state the counter of a live context is the number of active
      tasks whose path contains it plus the number of constant prefixes that pin it, and
      a live child's parent is live. */
  lemma RefCountsExact(engines: set<nat>, steps: seq<Step>, s: System, c: nat)
    requires Runs(Init(engines), steps, s) && c in s.mgr.contexts
    ensures c in s.mgr.refs && s.mgr.refs[c] == |Holders(s.holds, c)| + |Pinners(s.mgr.pins, c)| >= 1
    ensures s.mgr.contexts[c].parent.Some? ==>
              && s.mgr.contexts[c].parent.value in s.mgr.contexts
              && Holders(s.holds, c) <= Holders(s.holds, s.mgr.contexts[c].parent.value)
  {
    hide SysInv;
    RunsKeep(engines, steps, s);
    InvOf(s);
    if s.mgr.contexts[c].parent.Some? {
      ParentLive(s.mgr, s.holds, s.contents.Keys, c);
      forall t | t in Holders(s.holds, c) ensures t in Holders(s.holds, s.mgr.contexts[c].parent.value) {
        var i := HeldIndex(s.mgr, s.holds, t, c);
      }
    }
  }

  /** Nothing leaks: when no task is active and no constant prefix is pinned, no context
      is left anywhere, and every prefix cache is empty. */
  lemma NothingLeaks(engines: set<nat>, steps: seq<Step>, s: System)
    requires Runs(Init(engines), steps, s) && s.holds == map[] && s.mgr.pins == map[]
    ensures s.mgr.contexts == map[] && s.mgr.backend == map[]
    ensures forall e :: e in s.mgr.caches ==> s.mgr.caches[e].fwd == map[] && s.mgr.caches[e].rev == map[]
  {
    hide SysInv;
    RunsKeep(engines, steps, s);
    InvOf(s);
    assert forall c :: Holders(s.holds, c) == {} && Pinners(s.mgr.pins, c) == {};
    assert s.mgr.contexts.Keys == {};
    assert forall e, p :: e in s.mgr.caches && p in s.mgr.caches[e].fwd ==> EntryOk(s.mgr, e, s.contents.Keys, p);
    forall e | e in s.mgr.caches ensures s.mgr.caches[e].fwd.Keys == {} && s.mgr.caches[e].rev.Keys == {} {}
  }

  // ---------- One primitive per context, parents first ----------

  ghost predicate Posts(s: System, t: nat) {
    Enabled(s, Advance(t)) && s.holds[t].held[s.execs[t].next] !in s.started
  }

  /** Whenever a task posts a primitive, it is the first one for its context, the parent
      context is ready and known to the same engine, and no engine context hangs below. */
  lemma PostIsFirstAndOrdered(engines: set<nat>, steps: seq<Step>, s: System, t: nat)
    requires Runs(Init(engines), steps, s) && Posts(s, t)
    ensures var i := s.execs[t].next;
            var held := s.holds[t].held;
            && held[i] !in s.mgr.backend && !HasRemoteChild(s.mgr.backend, held[i])
            && (i > 0 ==> held[i - 1] in s.ready && held[i - 1] in s.mgr.backend)
            && (i > 0 ==> s.mgr.backend[held[i - 1]].engine == s.holds[t].engine)
            && Apply(s, Advance(t)).Ok? && Owns(Apply(s, Advance(t)).value, t, held[i])
  {
    hide SysInv, Apply;
    RunsKeep(engines, steps, s);
    AdvanceContext(s, t);
    var i := s.execs[t].next;
    UnstartedIsRemoteLeaf(s, s.holds[t].held[i]);
    PostOwns(s, t);
    if i > 0 { HeldEngine(s, t, i - 1); }
  }

  lemma UnstartedIsRemoteLeaf(s: System, c: nat)
    requires SysInv(s) && c !in s.started
    ensures c !in s.mgr.backend && !HasRemoteChild(s.mgr.backend, c)
  {
    hide Inv, TextInv, OwnedInv, ExclusiveInv, ExecsInv;
  }

  lemma PostOwns(s: System, t: nat)
    requires SysInv(s) && Posts(s, t)
    ensures Apply(s, Advance(t)).Ok? && Owns(Apply(s, Advance(t)).value, t, s.holds[t].held[s.execs[t].next])
  {
    hide SysInv;
    AdvanceContext(s, t);
    PostKeeps(s, t);
  }

  lemma HeldEngine(s: System, t: nat, i: nat)
    requires SysInv(s) && t in s.holds && i < |s.holds[t].held| && s.holds[t].held[i] in s.mgr.backend
    ensures s.mgr.backend[s.holds[t].held[i]].engine == s.holds[t].engine
  {
    hide TextInv, OwnedInv, ExclusiveInv, ExecsInv, RefInv, CacheInv, PinInv;
    HeldLive(s.mgr, s.holds, s.contents.Keys, t, i);
  }

  /** While a primitive is in flight its context has no child on the engine, so a context
      that has a child is never extended; and no other task has a primitive there. */
  lemma InFlightIsExclusive(engines: set<nat>, steps: seq<Step>, s: System, t: nat, c: nat)
    requires Runs(Init(engines), steps, s) && Owns(s, t, c)
    ensures c in s.mgr.backend && !HasRemoteChild(s.mgr.backend, c)
    ensures forall u :: Owns(s, u, c) ==> u == t
  {
    hide Inv, TextInv, OwnedInv;
    RunsKeep(engines, steps, s);
    assert ExecOk(s, t);
  }

  // ---------- Progress ----------

  /** The steps of coroutines that are already bound, as opposed to arrivals. */
  predicate IsTaskStep(st: Step) {
    st.Advance? || st.Wake? || st.Complete? || st.Finish?
  }

  predicate WaitsOn(s: System, t: nat, c: nat) {
    && t in s.holds && t in s.execs && s.execs[t].phase == Waiting
    && s.execs[t].next < |s.holds[t].held| && s.holds[t].held[s.execs[t].next] == c
  }

  /** The task waits for a context whose primitive failed. */
  predicate Stranded(s: System, t: nat) {
    && t in s.holds && t in s.execs && s.execs[t].phase == Waiting
    && s.execs[t].next < |s.holds[t].held| && s.holds[t].held[s.execs[t].next] in s.broken
  }

  /** Progress, exactly: in every reachable state some bound task can take a step if and
      only if some bound task is not waiting on a broken context. */
  lemma NoDeadlock(engines: set<nat>, steps: seq<Step>, s: System)
    requires Runs(Init(engines), steps, s)
    ensures (exists st :: IsTaskStep(st) && Enabled(s, st)) <==> (exists t :: t in s.holds && !Stranded(s, t))
  {
    hide SysInv;
    RunsKeep(engines, steps, s);
    if t :| t in s.holds && !Stranded(s, t) { FreeTaskSteps(s, t); }
    if st :| IsTaskStep(st) && Enabled(s, st) {
      BrokenNotReady(s);
      assert st.t in s.holds && !Stranded(s, st.t);
    }
  }

  lemma FreeTaskSteps(s: System, t: nat)
    requires SysInv(s) && t in s.holds && !Stranded(s, t)
    ensures exists st :: IsTaskStep(st) && Enabled(s, st)
  {
    hide Inv, TextInv, ExclusiveInv;
    assert ExecOk(s, t);
    var x := s.execs[t];
    match x.phase
    case AtNode => assert Enabled(s, if x.next < |s.holds[t].held| then Advance(t) else Finish(t));
    case InFlight => assert Enabled(s, Complete(t, ""));
    case Failed => assert Enabled(s, Finish(t));
    case Waiting =>
      var c := s.holds[t].held[x.next];
      if c in s.ready {
        assert Enabled(s, Wake(t));
      } else {
        assert c in s.started - s.ready - s.broken;
        var u :| Owns(s, u, c);
        assert Enabled(s, Complete(u, ""));
      }
  }

  lemma NoSteps(s: System)
    ensures Runs(s, [], s)
  {}

  lemma RunsStep(s0: System, steps: seq<Step>, r: System, st: Step, s: System)
    requires Runs(s0, steps, r) && Enabled(r, st) && Apply(r, st) == Ok(s)
    ensures Runs(s0, steps + [st], s)
  {
    var all := steps + [st];
    assert all[..|all| - 1] == steps && all[|all| - 1] == st;
  }

  /** The context will never be ready: its primitive failed, or it is a Generate in flight
      whose output variable somebody else has written, so that it is bound to fail. */
  ghost predicate Doomed(s: System, c: nat) {
    c in s.broken || exists u :: WillSpoil(s, u, c)
  }

  ghost predicate WillSpoil(s: System, u: nat, c: nat) {
    Owns(s, u, c) && s.execs[u].next >= |s.holds[u].chain.fills| && s.holds[u].chain.gen in s.contents
  }

  /** For one waiting task, exactly: it can still be woken if and only if the context it
      waits on is not doomed. */
  lemma WakesIff(engines: set<nat>, steps: seq<Step>, s: System, t: nat, c: nat)
    requires Runs(Init(engines), steps, s) && WaitsOn(s, t, c)
    ensures (exists more, n :: Runs(s, more, n) && !WaitsOn(n, t, c)) <==> !Doomed(s, c)
  {
    hide SysInv, Runs, Doomed;
    RunsKeep(engines, steps, s);
    if Doomed(s, c) {
      forall more, n | Runs(s, more, n) ensures WaitsOn(n, t, c) { StaysDoomed(s, more, n, t, c); }
    } else {
      var more, n := CanWake(s, t, c);
    }
  }

  lemma CanWake(s: System, t: nat, c: nat) returns (more: seq<Step>, n: System)
    requires SysInv(s) && WaitsOn(s, t, c) && !Doomed(s, c)
    ensures Runs(s, more, n) && !WaitsOn(n, t, c)
  {
    hide SysInv, Doomed;
    var r := s;
    more := [];
    NoSteps(s);
    if c !in s.ready { more, r := OwnerCompletes(s, t, c); }
    n := MoveTo(r, t, Exec(r.execs[t].next + 1, AtNode));
    RunsStep(s, more, r, Wake(t), n);
    more := more + [Wake(t)];
  }

  lemma OwnerCompletes(s: System, t: nat, c: nat) returns (more: seq<Step>, r: System)
    requires SysInv(s) && WaitsOn(s, t, c) && !Doomed(s, c) && c !in s.ready
    ensures Runs(s, more, r) && WaitsOn(r, t, c) && c in r.ready
  {
    hide SysInv, Runs;
    var u := OwnerOf(s, t, c);
    assert !WillSpoil(s, u, c);
    StepSafe(s, Complete(u, ""));
    r := Apply(s, Complete(u, "")).value;
    NoSteps(s);
    RunsStep(s, [], s, Complete(u, ""), r);
    more := [] + [Complete(u, "")];
  }

  lemma OwnerOf(s: System, t: nat, c: nat) returns (u: nat)
    requires SysInv(s) && WaitsOn(s, t, c) && c !in s.broken && c !in s.ready
    ensures Owns(s, u, c)
  {
    hide Inv, TextInv, ExclusiveInv;
    assert ExecOk(s, t);
    assert c in s.started - s.ready - s.broken;
    u :| Owns(s, u, c);
  }

  /** A task that waits on a doomed context waits forever, whatever happens next. */
  lemma WaitsForever(engines: set<nat>, steps: seq<Step>, s: System, more: seq<Step>, n: System, t: nat, c: nat)
    requires Runs(Init(engines), steps, s) && WaitsOn(s, t, c) && Doomed(s, c)
    requires Runs(s, more, n)
    ensures WaitsOn(n, t, c) && Doomed(n, c) && c !in n.ready
  {
    RunsKeep(engines, steps, s);
    StaysDoomed(s, more, n, t, c);
  }

  lemma {:induction false} StaysDoomed(s: System, more: seq<Step>, n: System, t: nat, c: nat)
    requires SysInv(s) && WaitsOn(s, t, c) && Doomed(s, c) && Runs(s, more, n)
    ensures SysInv(n) && WaitsOn(n, t, c) && Doomed(n, c) && c !in n.ready
    decreases |more|
  {
    hide SysInv, Doomed;
    if more == [] {
      DoomedNotReady(s, c);
    } else {
      var k := |more| - 1;
      var r :| Runs(s, more[..k], r) && Enabled(r, more[k]) && Apply(r, more[k]) == Ok(n);
      StaysDoomed(s, more[..k], r, t, c);
      StepSafe(r, more[k]);
      StepKeepsDoomed(r, more[k], n, t, c);
      DoomedNotReady(n, c);
    }
  }

  lemma DoomedNotReady(s: System, c: nat)
    requires SysInv(s) && Doomed(s, c)
    ensures c !in s.ready
  {
    hide Inv, TextInv, ExclusiveInv, OwnedInv;
    if u :| WillSpoil(s, u, c) { assert ExecOk(s, u); }
  }

  lemma StepKeepsDoomed(r: System, st: Step, n: System, t: nat, c: nat)
    requires SysInv(r) && SysInv(n) && Enabled(r, st) && Apply(r, st) == Ok(n)
    requires WaitsOn(r, t, c) && Doomed(r, c) && c !in r.ready
    ensures WaitsOn(n, t, c) && Doomed(n, c)
  {
    hide SysInv;
    if c in r.broken {
      StepKeepsBroken(r, st, n, t, c);
    } else {
      var u :| WillSpoil(r, u, c);
      StepKeepsSpoiling(r, st, n, t, u, c);
      assert c in n.broken || WillSpoil(n, u, c);
    }
  }

  lemma StepKeepsSpoiling(r: System, st: Step, n: System, t: nat, u: nat, c: nat)
    requires SysInv(r) && SysInv(n) && Enabled(r, st) && Apply(r, st) == Ok(n)
    requires WaitsOn(r, t, c) && WillSpoil(r, u, c) && c !in r.ready
    ensures WaitsOn(n, t, c) && (c in n.broken || WillSpoil(n, u, c))
  {
    hide SysInv, BindTask, FreeHeld, Expire;
  }

  lemma BrokenNotReady(s: System)
    requires SysInv(s)
    ensures s.broken !! s.ready && s.execs.Keys == s.holds.Keys
  {}

  lemma StillHeld(s: System, t: nat, c: nat)
    requires SysInv(s) && t in s.holds && c in s.holds[t].held
    ensures c in s.mgr.contexts
  {
    hide TextInv, OwnedInv, ExclusiveInv, ExecsInv;
    InvOf(s);
    var i :| 0 <= i < |s.holds[t].held| && s.holds[t].held[i] == c;
    HeldLive(s.mgr, s.holds, s.contents.Keys, t, i);
  }

  lemma StepKeepsBroken(r: System, st: Step, n: System, t: nat, c: nat)
    requires SysInv(r) && SysInv(n) && Enabled(r, st) && Apply(r, st) == Ok(n)
    requires WaitsOn(r, t, c) && c in r.broken && c !in r.ready
    ensures WaitsOn(n, t, c) && c in n.broken
  {
    hide SysInv;
    BrokenNotReady(r);
    if t in n.holds && n.holds[t] == r.holds[t] { StillHeld(n, t, c); }
  }

  // ---------- A run that strands a task ----------

  /** Two tasks on one engine whose chains begin with the same variable. */
  predicate SameStart(s: System, t: nat, u: nat) {
    && t in s.holds && u in s.holds && s.holds[t].engine == s.holds[u].engine
    && s.holds[t].chain.fills != [] && s.holds[u].chain.fills != []
    && s.holds[t].chain.fills[0] == s.holds[u].chain.fills[0]
  }

  /** They share their first context. */
  lemma SharedHead(s: System, t: nat, u: nat)
    requires SysInv(s) && SameStart(s, t, u)
    ensures |s.holds[t].held| > 0 && |s.holds[u].held| > 0 && s.holds[t].held[0] == s.holds[u].held[0]
  {
    hide TextInv, OwnedInv, ExclusiveInv, EventsInv, RefInv, PinInv, PoolInv, BackendInv, CacheInv;
    assert ExecOk(s, t) && ExecOk(s, u);
    HeldOkOf(s.mgr, s.holds[t], 0);
    HeldOkOf(s.mgr, s.holds[u], 0);
    assert s.holds[t].chain.fills[..1] == s.holds[u].chain.fills[..1];
  }

  predicate AboutToStart(s: System, t: nat) {
    && t in s.holds && t in s.execs && s.execs[t] == Exec(0, AtNode)
    && forall c :: c in s.holds[t].held ==> c !in s.started
  }

  /** Whenever two such tasks are about to start, a failure of the first one's Fill strands
      the second one. */
  lemma FailureStrands(s0: System, steps: seq<Step>, s: System, t: nat, u: nat, landed: bool) returns (n: System)
    requires Runs(s0, steps, s) && SysInv(s) && t != u && SameStart(s, t, u) && AboutToStart(s, t) && AboutToStart(s, u)
    ensures Runs(s0, steps + [Advance(u)] + [Advance(t)] + [Fail(u, landed)], n) && Stranded(n, t)
  {
    hide SysInv, Runs;
    SharedHead(s, t, u);
    StepSafe(s, Advance(u));
    var s1 := Apply(s, Advance(u)).value;
    RunsStep(s0, steps, s, Advance(u), s1);
    BrokenNotReady(s1);
    StepSafe(s1, Advance(t));
    var s2 := Apply(s1, Advance(t)).value;
    RunsStep(s0, steps + [Advance(u)], s1, Advance(t), s2);
    ReadyStarted(s);
    n := Apply(s2, Fail(u, landed)).value;
    RunsStep(s0, steps + [Advance(u)] + [Advance(t)], s2, Fail(u, landed), n);
  }

  lemma ReadyStarted(s: System)
    requires SysInv(s)
    ensures s.ready <= s.started
  {}

  /** Such a run from nothing: one variable is set, two tasks that start with it are bound,
      the first starts its Fill, the second waits, and the Fill fails. */
  lemma StrandedRun(e: nat, x: VarId, text: string, ch0: Chain, ch1: Chain) returns (s: System)
    requires ch0.fills == ch1.fills == [x]
    ensures Runs(Init({e}),
                 [SetVar(x, text), Bind(0, e, ch0), Bind(1, e, ch1), Advance(0), Advance(1), Fail(0, true)], s)
    ensures Stranded(s, 1)
  {
    hide SysInv, Runs, Stranded, SameStart, AboutToStart, Init;
    var s3 := TwoBound(e, x, text, ch0, ch1);
    s := FailureStrands(Init({e}), [SetVar(x, text), Bind(0, e, ch0), Bind(1, e, ch1)], s3, 1, 0, true);
    assert [SetVar(x, text), Bind(0, e, ch0), Bind(1, e, ch1)] + [Advance(0)] + [Advance(1)] + [Fail(0, true)]
        == [SetVar(x, text), Bind(0, e, ch0), Bind(1, e, ch1), Advance(0), Advance(1), Fail(0, true)];
  }

  lemma TwoBound(e: nat, x: VarId, text: string, ch0: Chain, ch1: Chain) returns (s: System)
    requires ch0.fills == ch1.fills == [x]
    ensures Runs(Init({e}), [SetVar(x, text), Bind(0, e, ch0), Bind(1, e, ch1)], s) && SysInv(s)
    ensures SameStart(s, 1, 0) && AboutToStart(s, 0) && AboutToStart(s, 1)
  {
    hide SysInv, BindTask, Runs;
    var s1 := OneSet(e, x, text);
    BindFacts(s1, 0, e, ch0);
    var s2 := Apply(s1, Bind(0, e, ch0)).value;
    RunsStep(Init({e}), [SetVar(x, text)], s1, Bind(0, e, ch0), s2);
    assert [SetVar(x, text)] + [Bind(0, e, ch0)] == [SetVar(x, text), Bind(0, e, ch0)];
    BindFacts(s2, 1, e, ch1);
    s := Apply(s2, Bind(1, e, ch1)).value;
    RunsStep(Init({e}), [SetVar(x, text), Bind(0, e, ch0)], s2, Bind(1, e, ch1), s);
    assert [SetVar(x, text), Bind(0, e, ch0)] + [Bind(1, e, ch1)]
        == [SetVar(x, text), Bind(0, e, ch0), Bind(1, e, ch1)];
  }

  lemma OneSet(e: nat, x: VarId, text: string) returns (s: System)
    ensures Runs(Init({e}), [SetVar(x, text)], s) && SysInv(s)
    ensures s.started == {} && s.holds == map[] && s.execs == map[] && x in s.contents && e in s.mgr.caches
  {
    hide SysInv;
    var s0 := Init({e});
    InitInv({e});
    s := Apply(s0, SetVar(x, text)).value;
    StepSafe(s0, SetVar(x, text));
    NoSteps(s0);
    RunsStep(s0, [], s0, SetVar(x, text), s);
    assert [] + [SetVar(x, text)] == [SetVar(x, text)];
  }

  lemma BindFacts(s: System, t: nat, e: nat, ch: Chain)
    requires SysInv(s) && Enabled(s, Bind(t, e, ch))
    ensures Apply(s, Bind(t, e, ch)).Ok? && SysInv(Apply(s, Bind(t, e, ch)).value)
    ensures Apply(s, Bind(t, e, ch)).value.mgr.caches.Keys == s.mgr.caches.Keys
  {
    hide SysInv, BindTask;
    BindKeeps(s, t, e, ch);
    InvOf(s);
    BindTaskKeeps(s.mgr, s.holds, s.contents.Keys, t, e, ch);
  }

  // ---------- A task takes boundedly many steps ----------

  function Actor(st: Step): Option<nat> {
    match st
    case Advance(t) => Some(t)
    case Wake(t) => Some(t)
    case Complete(t, _) => Some(t)
    case Fail(t, _) => Some(t)
    case Finish(t) => Some(t)
    case _ => None
  }

  ghost function Budget(s: System, t: nat): int {
    if t !in s.holds || t !in s.execs then 0
    else
      2 * (|s.holds[t].held| - s.execs[t].next)
      + (match s.execs[t].phase case AtNode => 2 case InFlight => 1 case Waiting => 1 case Failed => 0)
  }

  /** How many of the steps are taken by task t. */
  function StepsOf(steps: seq<Step>, t: nat): nat
    decreases |steps|
  {
    if steps == [] then 0
    else StepsOf(steps[..|steps| - 1], t) + if Actor(steps[|steps| - 1]) == Some(t) then 1 else 0
  }

  lemma StepSpendsBudget(r: System, st: Step, n: System, t: nat)
    requires SysInv(r) && Enabled(r, st) && Apply(r, st) == Ok(n) && t in r.holds
    requires !(st.Bind? && st.t == t)
    ensures 0 <= Budget(n, t)
    ensures Budget(n, t) <= Budget(r, t) - if Actor(st) == Some(t) then 1 else 0
  {
    hide SysInv;
    if Actor(st) == Some(t) {
      OwnStepSpends(r, st, n, t);
    } else {
      OthersLeaveTask(r, st, n, t);
      BudgetBound(r, t);
    }
  }

  lemma OthersLeaveTask(r: System, st: Step, n: System, t: nat)
    requires Enabled(r, st) && Apply(r, st) == Ok(n) && t in r.holds && Actor(st) != Some(t) && !(st.Bind? && st.t == t)
    ensures t in n.holds && n.holds[t] == r.holds[t]
    ensures t in r.execs <==> t in n.execs
    ensures t in r.execs ==> n.execs[t] == r.execs[t]
  {
    hide BindTask, FreeHeld, Expire;
  }

  lemma OwnStepSpends(r: System, st: Step, n: System, t: nat)
    requires SysInv(r) && Enabled(r, st) && Apply(r, st) == Ok(n) && t in r.holds && Actor(st) == Some(t)
    ensures 0 <= Budget(n, t) < Budget(r, t)
  {
    hide Inv, TextInv, OwnedInv, ExclusiveInv, EventsInv, FreeHeld;
    assert ExecOk(r, t);
  }

  /** From any reachable state a bound task with n nodes takes at most 2n + 2 further
      steps before it is gone. */
  lemma {:induction false} BoundedWork(s: System, more: seq<Step>, n: System, t: nat)
    requires SysInv(s) && t in s.holds && Runs(s, more, n)
    requires forall i :: 0 <= i < |more| ==> !(more[i].Bind? && more[i].t == t)
    ensures SysInv(n)
    ensures StepsOf(more, t) <= Budget(s, t) - Budget(n, t) <= 2 * |s.holds[t].held| + 2
    ensures 0 <= Budget(n, t)
    decreases |more|
  {
    hide SysInv;
    if more == [] {
      BudgetBound(s, t);
    } else {
      var k := |more| - 1;
      var r :| Runs(s, more[..k], r) && Enabled(r, more[k]) && Apply(r, more[k]) == Ok(n);
      BoundedWork(s, more[..k], r, t);
      StepSafe(r, more[k]);
      BudgetBound(s, t);
      if t in r.holds {
        StepSpendsBudget(r, more[k], n, t);
      } else {
        GoneStaysGone(r, more[k], n, t);
      }
    }
  }

  lemma BudgetBound(s: System, t: nat)
    requires SysInv(s) && t in s.holds
    ensures 0 <= Budget(s, t) <= 2 * |s.holds[t].held| + 2
  {
    hide Inv, TextInv, OwnedInv, ExclusiveInv, EventsInv;
    assert ExecOk(s, t);
  }

  lemma GoneStaysGone(r: System, st: Step, n: System, t: nat)
    requires Enabled(r, st) && Apply(r, st) == Ok(n) && t !in r.holds
    requires !(st.Bind? && st.t == t)
    ensures Budget(n, t) == 0 && Actor(st) != Some(t)
  {}

  // ---------- Expiry of constant prefixes ----------

  /** Over every run, only the first variable of a bound chain is ever pinned.  So the
      expiry of a constant prefix that never headed a bound chain, such as the second half
      of a split prefix, always trips the assertion in `free_constant_prefix_contexts`. */
  lemma {:induction false} OnlyHeadsArePinned(engines: set<nat>, steps: seq<Step>, s: System, v: VarId)
    requires Runs(Init(engines), steps, s)
    requires forall i :: 0 <= i < |steps| && steps[i].Bind? ==>
               steps[i].chain.fills == [] || steps[i].chain.fills[0] != v
    ensures v !in s.mgr.pins && Apply(s, ExpirePrefix(v)) == Raised
    decreases |steps|
  {
    hide SysInv;
    if steps != [] {
      var n := |steps| - 1;
      var r :| Runs(Init(engines), steps[..n], r) && Enabled(r, steps[n]) && Apply(r, steps[n]) == Ok(s);
      OnlyHeadsArePinned(engines, steps[..n], r, v);
      RunsKeep(engines, steps[..n], r);
      StepPins(r, steps[n], s, v);
    }
  }

  /** What one step does to the pins, exactly. */
  lemma StepPins(r: System, st: Step, n: System, v: VarId)
    requires SysInv(r) && Enabled(r, st) && Apply(r, st) == Ok(n)
    ensures v in n.mgr.pins <==> PinningBind(r, st, v) || (v in r.mgr.pins && st != ExpirePrefix(v))
  {
    hide SysInv, BindTask, FreeHeld, Expire, PinsHead;
    match st
    case Bind(t, e, ch) =>
      BindTaskPins(r.mgr, e, ch);
    case Finish(t) => FinishKeeps(r, t);
    case ExpirePrefix(u) => ExpireStepKeeps(r, u);
    case _ =>
  }

  /** A bind of a chain that starts with the constant prefix v and does not find it in the
      engine's cache. */
  predicate PinningBind(r: System, st: Step, v: VarId) {
    st.Bind? && st.chain.fills != [] && st.chain.fills[0] == v && PinsHead(r.mgr, st.engine, st.chain)
  }

  /** Step i of the run was such a bind, and v has not expired since. */
  ghost predicate PinnedAt(s0: System, steps: seq<Step>, i: nat, v: VarId)
    requires i < |steps|
  {
    && (exists r :: Runs(s0, steps[..i], r) && PinningBind(r, steps[i], v))
    && forall j :: i < j < |steps| ==> steps[j] != ExpirePrefix(v)
  }

  /** When an expiry succeeds, in terms of the history: v is pinned if and only if, since its
      last expiry, some bind headed by v as a constant prefix missed the cache. */
  lemma {:induction false} PinnedIff(engines: set<nat>, steps: seq<Step>, s: System, v: VarId)
    requires Runs(Init(engines), steps, s)
    ensures v in s.mgr.pins <==> exists i :: 0 <= i < |steps| && PinnedAt(Init(engines), steps, i, v)
    ensures Apply(s, ExpirePrefix(v)).Ok? <==> v in s.mgr.pins
    decreases |steps|
  {
    hide SysInv, Expire, PinningBind;
    RunsKeep(engines, steps, s);
    ExpireStepKeeps(s, v);
    if steps != [] {
      var n := |steps| - 1;
      var s0 := Init(engines);
      var r :| Runs(s0, steps[..n], r) && Enabled(r, steps[n]) && Apply(r, steps[n]) == Ok(s);
      PinnedIff(engines, steps[..n], r, v);
      RunsKeep(engines, steps[..n], r);
      StepPins(r, steps[n], s, v);
      forall i | 0 <= i < n
        ensures PinnedAt(s0, steps, i, v) <==> PinnedAt(s0, steps[..n], i, v) && steps[n] != ExpirePrefix(v)
      {
        PinnedAtShorter(s0, steps, i, v);
      }
      PinnedAtLast(s0, steps, r, v);
    }
  }

  lemma PinnedAtShorter(s0: System, steps: seq<Step>, i: nat, v: VarId)
    requires i < |steps| - 1
    ensures PinnedAt(s0, steps, i, v) <==>
              PinnedAt(s0, steps[..|steps| - 1], i, v) && steps[|steps| - 1] != ExpirePrefix(v)
  {
    hide PinningBind, Runs;
    var n := |steps| - 1;
    assert steps[..n][..i] == steps[..i] && steps[..n][i] == steps[i];
    assert forall j :: i < j < n ==> steps[..n][j] == steps[j];
  }

  lemma PinnedAtLast(s0: System, steps: seq<Step>, r: System, v: VarId)
    requires steps != [] && Runs(s0, steps[..|steps| - 1], r)
    ensures PinnedAt(s0, steps, |steps| - 1, v) <==> PinningBind(r, steps[|steps| - 1], v)
  {
    hide PinningBind;
    var before, last := steps[..|steps| - 1], steps[|steps| - 1];
    if q :| Runs(s0, before, q) && PinningBind(q, last, v) { RunsDeterministic(s0, before, q, r); }
  }

  lemma {:induction false} RunsDeterministic(s0: System, steps: seq<Step>, a: System, b: System)
    requires Runs(s0, steps, a) && Runs(s0, steps, b)
    ensures a == b
    decreases |steps|
  {
    if steps != [] {
      var n := |steps| - 1;
      var p :| Runs(s0, steps[..n], p) && Enabled(p, steps[n]) && Apply(p, steps[n]) == Ok(a);
      var q :| Runs(s0, steps[..n], q) && Enabled(q, steps[n]) && Apply(q, steps[n]) == Ok(b);
      RunsDeterministic(s0, steps[..n], p, q);
    }
  }

  /** So the assertion also trips for a variable that does head chains: while a task still
      holds the context of v, v expires, and a later task finds that context in the cache
      and does not pin it again.  The next expiry of v raises. */
  lemma RebindLosesPin(s: System, v: VarId, t: nat, u: nat, e: nat, ch: Chain)
    requires SysInv(s) && v in s.mgr.pins && t in s.holds && e == s.holds[t].engine
    requires s.holds[t].chain.fills != [] && s.holds[t].chain.fills[0] == v
    requires u !in s.holds && ch.fills != [] && ch.fills[0] == v
    requires forall i :: 0 <= i < |ch.fills| ==> ch.fills[i] in s.contents
    ensures Apply(s, ExpirePrefix(v)).Ok?
    ensures var s1 := Apply(s, ExpirePrefix(v)).value;
            && Enabled(s1, Bind(u, e, ch)) && Apply(s1, Bind(u, e, ch)).Ok?
            && Apply(Apply(s1, Bind(u, e, ch)).value, ExpirePrefix(v)) == Raised
  {
    hide SysInv, Expire, BindTask;
    ExpireStepKeeps(s, v);
    var s1 := Apply(s, ExpirePrefix(v)).value;
    HeadCached(s1, t);
    BindFacts(s1, u, e, ch);
    var s2 := Apply(s1, Bind(u, e, ch)).value;
    StepPins(s1, Bind(u, e, ch), s2, v);
    ExpireStepKeeps(s2, v);
  }

  lemma HeadCached(s: System, t: nat)
    requires SysInv(s) && t in s.holds && s.holds[t].chain.fills != []
    ensures s.holds[t].engine in s.mgr.caches && [s.holds[t].chain.fills[0]] in s.mgr.caches[s.holds[t].engine].fwd
  {
    hide TextInv, OwnedInv, ExclusiveInv, EventsInv, RefInv, PinInv, PoolInv, BackendInv, CacheInv;
    assert ExecOk(s, t);
    HeldOkOf(s.mgr, s.holds[t], 0);
    assert s.holds[t].chain.fills[..1] == [s.holds[t].chain.fills[0]];
  }
}
