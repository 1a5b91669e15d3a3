/** When a task can still finish: the exact condition under which some continuation of a
    run takes it to the end of its chain. */
module Completion {
  import opened Wrappers
  import opened ServeContexts
  import opened Execution
  import opened SharingTheorems

  // ---------- The context of a Gen node ----------

  /** No cached prefix is lost or moved. */
  ghost predicate CachesGrow(m: Manager, n: Manager) {
    forall f, p :: f in m.caches && p in m.caches[f].fwd ==>
      f in n.caches && p in n.caches[f].fwd && n.caches[f].fwd[p] == m.caches[f].fwd[p]
  }

  /** The Gen context of a new task is fresh, unless the whole chain is cached: then it is
      the cached one. */
  lemma {:induction false} GenContextFrom(b: Binding, hs: Holds, known: set<VarId>, t: nat, e: nat, ch: Chain)
    requires BindingOk(b, hs, known, t, e, ch) && |b.held| <= |ch.fills|
    ensures BindFrom(e, ch, b).Ok? && |BindFrom(e, ch, b).value.held| == |ch.fills| + 1
    ensures var c := BindFrom(e, ch, b).value.held[|ch.fills|];
            var fwd := b.mgr.caches[e].fwd;
            && (!b.miss && ch.Vars() in fwd ==> c == fwd[ch.Vars()])
            && (c !in b.mgr.contexts || (ch.Vars() in fwd && c == fwd[ch.Vars()]))
    ensures CachesGrow(b.mgr, BindFrom(e, ch, b).value.mgr)
    decreases |ch.fills| + 1 - |b.held|
  {
    hide Inv, BindNode;
    BindFromKeeps(b, hs, known, t, e, ch);
    var k := |b.held|;
    VarsPrefix(ch, k);
    if !b.miss && ch.Vars() in b.mgr.caches[e].fwd { WholeChainHits(b, hs, known, t, e, ch); }
    if !b.miss && ch.Vars()[..k + 1] in b.mgr.caches[e].fwd {
      HitKeeps(b, hs, known, t, e, ch);
      HitChanges(b, e, ch);
    } else {
      MissKeeps(b, hs, known, t, e, ch);
      MissChanges(b, hs, known, t, e, ch);
    }
    var b1 := BindNode(e, ch, b).value;
    if k < |ch.fills| {
      GenContextFrom(b1, hs[t := Hold(e, ch, b1.held)], known, t, e, ch);
    } else {
      assert BindFrom(e, ch, b1) == Ok(b1);
    }
  }

  lemma WholeChainHits(b: Binding, hs: Holds, known: set<VarId>, t: nat, e: nat, ch: Chain)
    requires BindingOk(b, hs, known, t, e, ch) && |b.held| <= |ch.fills| && ch.Vars() in b.mgr.caches[e].fwd
    ensures ch.Vars()[..|b.held| + 1] in b.mgr.caches[e].fwd
  {
    hide HoldInv, PinInv, PoolInv, BackendInv, RefInv, EntryOk;
    VarsPrefix(ch, |b.held|);
    PrefixCached(b.mgr, known, e, ch.Vars(), |b.held| + 1);
  }

  /** A hit changes reference counts only. */
  lemma HitChanges(b: Binding, e: nat, ch: Chain)
    requires |b.held| <= |ch.fills| && BindNode(e, ch, b).Ok? && e in b.mgr.caches
    requires !b.miss && ch.Vars()[..|b.held| + 1] in b.mgr.caches[e].fwd
    ensures var b1 := BindNode(e, ch, b).value;
            && b1.mgr.caches == b.mgr.caches && b1.mgr.contexts == b.mgr.contexts && !b1.miss
            && b1.held == b.held + [b.mgr.caches[e].fwd[ch.Vars()[..|b.held| + 1]]]
            && CachesGrow(b.mgr, b1.mgr)
  {}

  /** A miss adds one fresh context and caches at most the prefix of a Fill node. */
  lemma MissChanges(b: Binding, hs: Holds, known: set<VarId>, t: nat, e: nat, ch: Chain)
    requires BindingOk(b, hs, known, t, e, ch) && |b.held| <= |ch.fills|
    requires b.miss || ch.Vars()[..|b.held| + 1] !in b.mgr.caches[e].fwd
    ensures BindNode(e, ch, b).Ok?
    ensures var b1 := BindNode(e, ch, b).value;
            && |b1.held| == |b.held| + 1 && b1.miss && e in b1.mgr.caches
            && b1.held[|b.held|] !in b.mgr.contexts && b.mgr.contexts.Keys <= b1.mgr.contexts.Keys
            && (forall p :: p in b1.mgr.caches[e].fwd && |p| == |ch.fills| + 1 ==>
                  p in b.mgr.caches[e].fwd && b.mgr.caches[e].fwd[p] == b1.mgr.caches[e].fwd[p])
            && CachesGrow(b.mgr, b1.mgr)
  {
    hide CacheInv, HoldInv, PinInv, RefInv, HoldOk, Extends, Pinners, Holders, BindNode;
    BindParent(b, hs, known, t, e, ch);
    MissNotCached(b, hs, known, t, e, ch);
    FreshId(b.mgr, hs, known);
    MissShape(b, hs, known, t, e, ch);
  }

  lemma GenContext(m: Manager, hs: Holds, known: set<VarId>, t: nat, e: nat, ch: Chain)
    requires Inv(m, hs, known) && t !in hs && e in m.caches && ch.fills != []
    requires forall i :: 0 <= i < |ch.fills| ==> ch.fills[i] in known
    ensures BindTask(m, e, ch).Ok? && |BindTask(m, e, ch).value.held| == |ch.fills| + 1
    ensures var c := BindTask(m, e, ch).value.held[|ch.fills|];
            var fwd := m.caches[e].fwd;
            && (ch.Vars() in fwd ==> c == fwd[ch.Vars()])
            && (c !in m.contexts || (ch.Vars() in fwd && c == fwd[ch.Vars()]))
    ensures CachesGrow(m, BindTask(m, e, ch).value.mgr)
  {
    hide Inv;
    AddEmptyHold(m, hs, known, t, e, ch);
    GenContextFrom(Binding(m, [], false), hs[t := Hold(e, ch, [])], known, t, e, ch);
  }

  // ---------- A context outside the cache belongs to one task ----------

  ghost predicate Cached(s: System, c: nat) {
    exists e, p :: e in s.mgr.caches && p in s.mgr.caches[e].fwd && s.mgr.caches[e].fwd[p] == c
  }

  predicate FullHold(s: System, t: nat) {
    t in s.holds && |s.holds[t].held| == |s.holds[t].chain.fills| + 1
  }

  function GenHeld(s: System, t: nat): nat
    requires FullHold(s, t)
  {
    s.holds[t].held[|s.holds[t].chain.fills|]
  }

  ghost predicate UniqueGens(s: System) {
    forall t, u :: t != u && FullHold(s, t) && FullHold(s, u) && GenHeld(s, t) == GenHeld(s, u) ==>
        Cached(s, GenHeld(s, t))
  }

  /** What a step does to the holds and the cached prefixes of contexts that stay live. */
  lemma StepChanges(r: System, st: Step, n: System)
    requires SysInv(r) && Enabled(r, st) && Apply(r, st) == Ok(n)
    ensures forall u :: u in n.holds && !(st.Bind? && st.t == u) ==> u in r.holds && n.holds[u] == r.holds[u]
    ensures forall c :: Cached(r, c) && c in n.mgr.contexts ==> Cached(n, c)
    ensures forall c :: Cached(n, c) && c in r.mgr.contexts ==> Cached(r, c)
  {
    hide SysInv, BindTask, FreeHeld, Expire, Cached;
    match st
    case Bind(t, e, ch) => BindChanges(r, t, e, ch);
    case Finish(t) => FinishChanges(r, t);
    case ExpirePrefix(v) =>
      ExpireStepKeeps(r, v);
      ExpireChanges(r, v);
    case _ => SameCaches(r, n);
  }

  lemma SameCaches(r: System, n: System)
    requires n.mgr.caches == r.mgr.caches
    ensures forall c :: Cached(r, c) <==> Cached(n, c)
  {}

  lemma PrunedCaches(r: System, n: System)
    requires Pruned(r.mgr, n.mgr)
    ensures forall c :: Cached(r, c) && c in n.mgr.contexts ==> Cached(n, c)
    ensures forall c :: Cached(n, c) ==> Cached(r, c)
  {}

  lemma FinishChanges(r: System, t: nat)
    requires SysInv(r) && Enabled(r, Finish(t))
    ensures Apply(r, Finish(t)).Ok?
    ensures var n := Apply(r, Finish(t)).value;
            && (forall u :: u in n.holds ==> u in r.holds && n.holds[u] == r.holds[u])
            && (forall c :: Cached(r, c) && c in n.mgr.contexts ==> Cached(n, c))
            && (forall c :: Cached(n, c) ==> Cached(r, c))
  {
    hide Inv, OwnedInv, TextInv, ExclusiveInv, EventsInv, Pruned, Cached;
    FreeHeldKeeps(r.mgr, r.holds, r.contents.Keys, t, {});
    PrunedCaches(r, Apply(r, Finish(t)).value);
  }

  lemma ExpireChanges(r: System, v: VarId)
    requires SysInv(r) && v in r.mgr.pins
    ensures Apply(r, ExpirePrefix(v)).Ok?
    ensures var n := Apply(r, ExpirePrefix(v)).value;
            && n.holds == r.holds
            && (forall c :: Cached(r, c) && c in n.mgr.contexts ==> Cached(n, c))
            && (forall c :: Cached(n, c) ==> Cached(r, c))
  {
    hide Inv, OwnedInv, TextInv, ExclusiveInv, EventsInv, Pruned, Cached, Expire;
    ExpireKeeps(r.mgr, r.holds, r.contents.Keys, v);
    PrunedCaches(r, Apply(r, ExpirePrefix(v)).value);
  }

  lemma GrownCaches(r: System, n: System, v: VarId)
    requires CachesGrow(r.mgr, n.mgr) && Extended(r.mgr, n.mgr, v)
    ensures forall c :: Cached(r, c) ==> Cached(n, c)
    ensures forall c :: Cached(n, c) && c in r.mgr.contexts ==> Cached(r, c)
  {}

  lemma BindChanges(r: System, t: nat, e: nat, ch: Chain)
    requires SysInv(r) && Enabled(r, Bind(t, e, ch))
    ensures Apply(r, Bind(t, e, ch)).Ok?
    ensures var n := Apply(r, Bind(t, e, ch)).value;
            && (forall u :: u in n.holds && u != t ==> u in r.holds && n.holds[u] == r.holds[u])
            && FullHold(n, t)
            && (GenHeld(n, t) !in r.mgr.contexts || Cached(r, GenHeld(n, t)))
            && (ch.Vars() in r.mgr.caches[e].fwd ==> Cached(r, GenHeld(n, t)))
            && (forall c :: Cached(r, c) ==> Cached(n, c))
            && (forall c :: Cached(n, c) && c in r.mgr.contexts ==> Cached(r, c))
  {
    hide SysInv, BindTask, CachesGrow, Extended;
    InvOf(r);
    GenContext(r.mgr, r.holds, r.contents.Keys, t, e, ch);
    BindTaskKeeps(r.mgr, r.holds, r.contents.Keys, t, e, ch);
    GrownCaches(r, Apply(r, Bind(t, e, ch)).value, ch.fills[0]);
  }

  lemma StepKeepsUnique(r: System, st: Step, n: System)
    requires SysInv(r) && SysInv(n) && UniqueGens(r) && Enabled(r, st) && Apply(r, st) == Ok(n)
    ensures UniqueGens(n)
  {
    hide SysInv, BindTask, Cached, Apply, Enabled;
    StepChanges(r, st, n);
    forall t, u | t != u && FullHold(n, t) && FullHold(n, u) && GenHeld(n, t) == GenHeld(n, u)
      ensures Cached(n, GenHeld(n, t))
    {
      StillHeld(n, t, GenHeld(n, t));
      if st.Bind? && st.t == t {
        BoundGen(r, st, n, u);
      } else if st.Bind? && st.t == u {
        BoundGen(r, st, n, t);
      } else {
        assert FullHold(r, t) && FullHold(r, u);
      }
    }
  }

  /** The Gen context of a task that was just bound, when another task holds it. */
  lemma BoundGen(r: System, st: Step, n: System, u: nat)
    requires SysInv(r) && SysInv(n) && Enabled(r, st) && Apply(r, st) == Ok(n) && st.Bind? && u != st.t
    requires FullHold(n, st.t) && FullHold(n, u) && GenHeld(n, st.t) == GenHeld(n, u)
    ensures Cached(n, GenHeld(n, u))
  {
    hide SysInv, BindTask, Cached;
    BindChanges(r, st.t, st.engine, st.chain);
    StillHeld(r, u, GenHeld(r, u));
  }

  lemma {:induction false} RunsKeepUnique(engines: set<nat>, steps: seq<Step>, s: System)
    requires Runs(Init(engines), steps, s)
    ensures SysInv(s) && UniqueGens(s)
    decreases |steps|
  {
    hide SysInv;
    RunsKeep(engines, steps, s);
    if steps != [] {
      var n := |steps| - 1;
      var r :| Runs(Init(engines), steps[..n], r) && Enabled(r, steps[n]) && Apply(r, steps[n]) == Ok(s);
      RunsKeepUnique(engines, steps[..n], r);
      StepKeepsUnique(r, steps[n], s);
    }
  }

  // ---------- The condition ----------

  /** Past its last node: the loop of `execute` ends normally. */
  predicate AtEnd(s: System, t: nat) {
    t in s.holds && t in s.execs && s.execs[t] == Exec(|s.holds[t].held|, AtNode)
  }

  /** The task's own Generate would be spoiled: its output is written, nobody has made its
      context ready, and nobody else can, since the context is in no cache. */
  ghost predicate GenBlocked(s: System, t: nat) {
    && FullHold(s, t) && GenHeld(s, t) !in s.ready
    && s.holds[t].chain.gen in s.contents && !Cached(s, GenHeld(s, t))
  }

  /** Nothing on the rest of the task's path is beyond repair. */
  ghost predicate CanFinish(s: System, t: nat) {
    && t in s.holds && t in s.execs && s.execs[t].phase != Failed
    && (forall i :: s.execs[t].next <= i < |s.holds[t].held| ==> !Doomed(s, s.holds[t].held[i]))
    && !GenBlocked(s, t)
  }

  predicate NeverBinds(more: seq<Step>, t: nat) {
    forall i :: 0 <= i < |more| ==> !(more[i].Bind? && more[i].t == t)
  }

  // ---------- The condition is necessary ----------

  lemma EndCanFinish(s: System, t: nat)
    requires SysInv(s) && AtEnd(s, t)
    ensures CanFinish(s, t)
  {
    hide Inv, TextInv, OwnedInv, ExclusiveInv, Cached;
    assert ExecOk(s, t);
  }

  lemma DoomedPersists(r: System, st: Step, n: System, c: nat)
    requires SysInv(r) && Enabled(r, st) && Apply(r, st) == Ok(n) && Doomed(r, c) && c in n.mgr.contexts
    ensures Doomed(n, c)
  {
    hide SysInv, WillSpoil;
    if c in r.broken {
      BrokenPersists(r, st, n, c);
    } else {
      var u :| WillSpoil(r, u, c);
      SpoilPersists(r, st, n, u, c);
      assert c in n.broken || WillSpoil(n, u, c);
    }
  }

  lemma BrokenPersists(r: System, st: Step, n: System, c: nat)
    requires Enabled(r, st) && Apply(r, st) == Ok(n) && c in r.broken && c in n.mgr.contexts
    ensures c in n.broken
  {
    hide BindTask, FreeHeld, Expire;
  }

  lemma SpoilPersists(r: System, st: Step, n: System, u: nat, c: nat)
    requires Enabled(r, st) && Apply(r, st) == Ok(n) && WillSpoil(r, u, c)
    ensures c in n.broken || WillSpoil(n, u, c)
  {
    hide BindTask, FreeHeld, Expire;
    if Actor(st) != Some(u) { OthersLeaveTask(r, st, n, u); }
  }

  /** A task does not pass a doomed context. */
  lemma StopsBefore(r: System, st: Step, n: System, t: nat, i: nat)
    requires SysInv(r) && Enabled(r, st) && Apply(r, st) == Ok(n) && !(st.Bind? && st.t == t)
    requires t in r.holds && t in n.holds && t in r.execs && r.execs[t].next <= i < |r.holds[t].held|
             && Doomed(r, r.holds[t].held[i])
    ensures t in n.execs && n.holds[t] == r.holds[t] && (n.execs[t].next <= i || n.execs[t].phase == Failed)
  {
    hide Inv, TextInv, OwnedInv, BindTask, FreeHeld, Expire;
    DoomedNotReady(r, r.holds[t].held[i]);
    assert ExecOk(r, t);
    if Actor(st) != Some(t) { OthersLeaveTask(r, st, n, t); }
  }

  lemma FillIsCached(s: System, u: nat, c: nat)
    requires SysInv(s) && Owns(s, u, c) && s.execs[u].next < |s.holds[u].chain.fills|
    ensures Cached(s, c)
  {
    hide TextInv, OwnedInv, ExclusiveInv, EventsInv, RefInv, PinInv, PoolInv, BackendInv, CacheInv;
    HeldOkOf(s.mgr, s.holds[u], s.execs[u].next);
  }

  lemma OnlyOwnGen(s: System, t: nat, u: nat)
    requires SysInv(s) && UniqueGens(s) && GenBlocked(s, t) && Owns(s, u, GenHeld(s, t))
    requires s.execs[u].next >= |s.holds[u].chain.fills|
    ensures u == t
  {
    hide SysInv, Cached;
    TaskShape(s, u);
    assert FullHold(s, u) && GenHeld(s, u) == GenHeld(s, t);
  }

  lemma BlockedPersists(r: System, st: Step, n: System, t: nat)
    requires SysInv(r) && SysInv(n) && UniqueGens(r) && Enabled(r, st) && Apply(r, st) == Ok(n)
    requires !(st.Bind? && st.t == t)
    requires t in n.holds && GenBlocked(r, t)
    ensures GenBlocked(n, t)
  {
    hide SysInv, BindTask, FreeHeld, Expire, Cached;
    StepChanges(r, st, n);
    var c := GenHeld(r, t);
    StillHeld(r, t, c);
    if c in n.ready && st.Complete? {
      var u := st.t;
      assert Owns(r, u, c);
      TaskShape(r, u);
      if r.execs[u].next < |r.holds[u].chain.fills| {
        FillIsCached(r, u, c);
      } else {
        OnlyOwnGen(r, t, u);
      }
    }
  }

  lemma StaysUnfinishable(r: System, st: Step, n: System, t: nat)
    requires SysInv(r) && SysInv(n) && UniqueGens(r) && Enabled(r, st) && Apply(r, st) == Ok(n)
    requires !(st.Bind? && st.t == t)
    requires t in r.holds && t in r.execs && t in n.holds && !CanFinish(r, t)
    ensures !CanFinish(n, t)
  {
    hide SysInv, BindTask, FreeHeld, Expire, Doomed, GenBlocked, Cached;
    if r.execs[t].phase == Failed {
    } else if GenBlocked(r, t) {
      BlockedPersists(r, st, n, t);
    } else {
      var i :| r.execs[t].next <= i < |r.holds[t].held| && Doomed(r, r.holds[t].held[i]);
      StopsBefore(r, st, n, t, i);
      StillHeld(n, t, r.holds[t].held[i]);
      DoomedPersists(r, st, n, r.holds[t].held[i]);
    }
  }

  lemma {:induction false} NeverFinishes(s: System, more: seq<Step>, n: System, t: nat)
    requires SysInv(s) && UniqueGens(s) && t in s.holds && t in s.execs && !CanFinish(s, t)
    requires Runs(s, more, n) && NeverBinds(more, t)
    ensures SysInv(n) && UniqueGens(n) && (t in n.holds ==> t in n.execs && !CanFinish(n, t))
    decreases |more|
  {
    hide SysInv, CanFinish, UniqueGens;
    if more != [] {
      var k := |more| - 1;
      var r :| Runs(s, more[..k], r) && Enabled(r, more[k]) && Apply(r, more[k]) == Ok(n);
      NeverFinishes(s, more[..k], r, t);
      StepSafe(r, more[k]);
      StepKeepsUnique(r, more[k], n);
      BrokenNotReady(n);
      if t in n.holds {
        StepChanges(r, more[k], n);
        StaysUnfinishable(r, more[k], n, t);
      }
    }
  }

  // ---------- The condition is sufficient ----------

  lemma {:induction false} RunsConcat(s: System, a: seq<Step>, r: System, b: seq<Step>, n: System)
    requires Runs(s, a, r) && Runs(r, b, n)
    ensures Runs(s, a + b, n)
    decreases |b|
  {
    hide Apply, Enabled;
    if b == [] {
      assert a + b == a;
    } else {
      var k := |b| - 1;
      var q :| Runs(r, b[..k], q) && Enabled(q, b[k]) && Apply(q, b[k]) == Ok(n);
      RunsConcat(s, a, r, b[..k], q);
      RunsStep(s, a + b[..k], q, b[k], n);
      assert a + b[..k] + [b[k]] == a + b;
    }
  }

  /** The task is through its node i, and what lies behind it is as it was. */
  ghost predicate Through(s: System, n: System, t: nat) {
    && t in s.holds && t in s.execs && s.execs[t].next < |s.holds[t].held|
    && t in n.holds && t in n.execs && n.holds[t] == s.holds[t] && n.execs[t] == Exec(s.execs[t].next + 1, AtNode)
    && s.ready <= n.ready && s.holds[t].held[s.execs[t].next] in n.ready && n.broken == s.broken
    && (s.execs[t].next + 1 < |s.holds[t].held| ==>
          && n.contents == s.contents && n.mgr.caches == s.mgr.caches
          && forall u :: u != t && HasPhase(n, u, InFlight) ==>
               HasPhase(s, u, InFlight) && n.holds[u] == s.holds[u] && n.execs[u] == s.execs[u])
  }

  lemma StillCanFinish(s: System, n: System, t: nat)
    requires SysInv(s) && SysInv(n) && CanFinish(s, t) && Through(s, n, t)
    ensures CanFinish(n, t)
  {
    hide SysInv, Cached;
    TaskShape(s, t);
    SameCaches2(s, n);
    var h := s.holds[t];
    forall i | n.execs[t].next <= i < |h.held| ensures !Doomed(n, h.held[i]) {
      assert !Doomed(s, h.held[i]);
      assert forall u :: WillSpoil(n, u, h.held[i]) ==> WillSpoil(s, u, h.held[i]);
    }
  }

  lemma SameCaches2(s: System, n: System)
    ensures n.mgr.caches == s.mgr.caches ==> forall c :: Cached(s, c) <==> Cached(n, c)
  {}

  /** One step of the task itself that takes it through its node. */
  lemma PassByStep(s: System, t: nat, st: Step) returns (n: System)
    requires SysInv(s) && CanFinish(s, t) && s.execs[t].next < |s.holds[t].held| && Enabled(s, st)
    requires var c := s.holds[t].held[s.execs[t].next];
             (st == Advance(t) && c in s.ready) || st == Wake(t) || st == Complete(t, "")
    ensures Apply(s, st) == Ok(n) && SysInv(n) && Through(s, n, t)
  {
    hide SysInv, CanFinish;
    StepSafe(s, st);
    n := Apply(s, st).value;
    if st == Complete(t, "") { OwnCompletion(s, t); }
  }

  /** A completing task is not about to spoil its context, and only its last node writes a
      variable. */
  lemma OwnCompletion(s: System, t: nat)
    requires SysInv(s) && CanFinish(s, t) && s.execs[t].next < |s.holds[t].held| && Enabled(s, Complete(t, ""))
    ensures Apply(s, Complete(t, "")).Ok?
    ensures Through(s, Apply(s, Complete(t, "")).value, t)
  {
    hide SysInv, Cached;
    StepSafe(s, Complete(t, ""));
    TaskShape(s, t);
    var c := s.holds[t].held[s.execs[t].next];
    assert !Doomed(s, c);
    assert !WillSpoil(s, t, c);
  }

  /** A waiting task: the owner completes, then the task wakes. */
  lemma PassByWaiting(s: System, t: nat) returns (more: seq<Step>, n: System)
    requires SysInv(s) && CanFinish(s, t) && HasPhase(s, t, Waiting) && s.execs[t].next < |s.holds[t].held|
    ensures Runs(s, more, n) && SysInv(n) && Through(s, n, t) && NeverBinds(more, t)
  {
    hide SysInv, Cached, Runs, GenBlocked;
    var c := s.holds[t].held[s.execs[t].next];
    NoSteps(s);
    assert !Doomed(s, c);
    if c in s.ready {
      n := PassByStep(s, t, Wake(t));
      RunsStep(s, [], s, Wake(t), n);
      more := [] + [Wake(t)];
    } else {
      var u := OwnerOf(s, t, c);
      var r := OwnerPasses(s, t, u, c);
      RunsStep(s, [], s, Complete(u, ""), r);
      StepSafe(r, Wake(t));
      n := Apply(r, Wake(t)).value;
      RunsStep(s, [] + [Complete(u, "")], r, Wake(t), n);
      more := [] + [Complete(u, "")] + [Wake(t)];
    }
  }

  lemma OwnerPasses(s: System, t: nat, u: nat, c: nat) returns (r: System)
    requires SysInv(s) && WaitsOn(s, t, c) && Owns(s, u, c) && !Doomed(s, c)
    ensures Enabled(s, Complete(u, "")) && Apply(s, Complete(u, "")) == Ok(r) && SysInv(r)
    ensures r.holds == s.holds && r.execs == s.execs[u := Exec(s.execs[u].next + 1, AtNode)] && u != t
    ensures r.ready == s.ready + {c} && r.broken == s.broken && r.mgr.caches == s.mgr.caches
    ensures s.execs[t].next + 1 < |s.holds[t].held| ==> r.contents == s.contents
  {
    hide SysInv, Cached;
    StepSafe(s, Complete(u, ""));
    assert !WillSpoil(s, u, c);
    r := Apply(s, Complete(u, "")).value;
    TaskShape(s, t);
    if s.execs[t].next + 1 < |s.holds[t].held| { OwnerAtFill(s, t, u, c); }
  }

  /** The owner of a context that another task waits for as a Fill is itself at a Fill, unless
      it is about to spoil it. */
  lemma OwnerAtFill(s: System, t: nat, u: nat, c: nat)
    requires SysInv(s) && WaitsOn(s, t, c) && Owns(s, u, c) && !WillSpoil(s, u, c)
             && s.execs[t].next < |s.holds[t].chain.fills|
    ensures s.execs[u].next < |s.holds[u].chain.fills|
  {
    hide TextInv, OwnedInv, ExclusiveInv, EventsInv, RefInv, PinInv, PoolInv, BackendInv, CacheInv;
    HeldOkOf(s.mgr, s.holds[t], s.execs[t].next);
    if s.execs[u].next >= |s.holds[u].chain.fills| { GenFacts(s, u); }
  }

  /** A task at a node whose context another task has started: it starts to wait. */
  lemma PassByAwaiting(s: System, t: nat) returns (more: seq<Step>, n: System)
    requires SysInv(s) && CanFinish(s, t) && Enabled(s, Advance(t))
    requires s.holds[t].held[s.execs[t].next] in s.started && s.holds[t].held[s.execs[t].next] !in s.ready
    ensures Runs(s, more, n) && SysInv(n) && Through(s, n, t) && NeverBinds(more, t)
  {
    hide SysInv, Cached, Runs;
    StepSafe(s, Advance(t));
    var r := Apply(s, Advance(t)).value;
    assert r == MoveTo(s, t, Exec(s.execs[t].next, Waiting));
    SameCaches2(s, r);
    forall c ensures Doomed(r, c) <==> Doomed(s, c) { DoomedSame(s, r, t, c); }
    assert CanFinish(r, t);
    NoSteps(s);
    RunsStep(s, [], s, Advance(t), r);
    var rest;
    rest, n := PassByWaiting(r, t);
    more := [] + [Advance(t)] + rest;
    RunsConcat(s, [] + [Advance(t)], r, rest, n);
    ThroughFrom(s, r, n, t);
  }

  lemma DoomedSame(s: System, r: System, t: nat, c: nat)
    requires t in s.holds && t in s.execs && s.execs[t].phase != InFlight
             && r == MoveTo(s, t, Exec(s.execs[t].next, Waiting))
    ensures Doomed(r, c) <==> Doomed(s, c)
  {
    assert forall u :: WillSpoil(r, u, c) <==> WillSpoil(s, u, c);
  }

  lemma ThroughFrom(s: System, r: System, n: System, t: nat)
    requires t in s.holds && t in s.execs && s.execs[t].phase != InFlight
             && r == MoveTo(s, t, Exec(s.execs[t].next, Waiting))
    requires Through(r, n, t)
    ensures Through(s, n, t)
  {}

  /** A task at a node nobody has started, whose primitive is not doomed to be spoiled: it
      posts the primitive, which completes. */
  lemma PassByPosting(s: System, t: nat) returns (more: seq<Step>, n: System)
    requires SysInv(s) && CanFinish(s, t) && Posts(s, t)
    requires s.execs[t].next < |s.holds[t].chain.fills| || s.holds[t].chain.gen !in s.contents
    ensures Runs(s, more, n) && SysInv(n) && Through(s, n, t) && NeverBinds(more, t)
  {
    hide SysInv, Cached, Runs, CanFinish;
    var c := s.holds[t].held[s.execs[t].next];
    TaskShape(s, t);
    ReadyStarted(s);
    PostOwns(s, t);
    StepSafe(s, Advance(t));
    var r := Apply(s, Advance(t)).value;
    NoSteps(s);
    RunsStep(s, [], s, Advance(t), r);
    StepSafe(r, Complete(t, ""));
    n := Apply(r, Complete(t, "")).value;
    RunsStep(s, [] + [Advance(t)], r, Complete(t, ""), n);
    more := [] + [Advance(t)] + [Complete(t, "")];
  }

  // ---------- A helper for a Gen node whose variable is written ----------

  lemma FreshNat(s: set<nat>) returns (w: nat)
    ensures w !in s
  {
    w := Above(s);
  }

  lemma {:induction false} Above(s: set<nat>) returns (w: nat)
    ensures forall x :: x in s ==> x < w
    decreases |s|
  {
    w := 0;
    if s != {} {
      var x :| x in s;
      w := Above(s - {x});
      if x >= w { w := x + 1; }
      forall y | y in s ensures y < w { assert y == x || y in s - {x}; }
    }
  }

  /** A task that has nothing to do up to its node k. */
  lemma {:induction false} SkipReady(s: System, w: nat, k: nat) returns (more: seq<Step>, n: System)
    requires SysInv(s) && w in s.holds && w in s.execs && s.execs[w] == Exec(0, AtNode) && k <= |s.holds[w].held|
    requires forall i :: 0 <= i < k ==> s.holds[w].held[i] in s.ready
    ensures Runs(s, more, n) && n == MoveTo(s, w, Exec(k, AtNode)) && SysInv(n)
    ensures forall i :: 0 <= i < |more| ==> more[i] == Advance(w)
  {
    hide SysInv, Runs;
    if k == 0 {
      NoSteps(s);
      more, n := [], s;
      assert s.execs[w := s.execs[w]] == s.execs;
    } else {
      var r;
      more, r := SkipReady(s, w, k - 1);
      StepSafe(r, Advance(w));
      n := Apply(r, Advance(w)).value;
      RunsStep(s, more, r, Advance(w), n);
      more := more + [Advance(w)];
    }
  }

  /** The path of a cached Gen context is the task's chain. */
  lemma CachedGenPath(s: System, t: nat)
    requires SysInv(s) && FullHold(s, t) && Cached(s, GenHeld(s, t))
    ensures var h := s.holds[t];
            && h.engine in s.mgr.caches && h.chain.Vars() in s.mgr.caches[h.engine].fwd
            && s.mgr.caches[h.engine].fwd[h.chain.Vars()] == GenHeld(s, t)
            && (forall i :: 0 <= i < |h.chain.Vars()| ==> h.chain.Vars()[i] in s.contents)
  {
    hide TextInv, OwnedInv, ExclusiveInv, EventsInv, ExecsInv, RefInv, PinInv, PoolInv, BackendInv, EntryOk, CacheInv;
    var c := GenHeld(s, t);
    HoldOkOf(s.mgr, s.holds, t);
    HeldOkOf(s.mgr, s.holds[t], |s.holds[t].chain.fills|);
    var e, p :| e in s.mgr.caches && p in s.mgr.caches[e].fwd && s.mgr.caches[e].fwd[p] == c;
    EntryFacts(s.mgr, s.contents.Keys, e, p);
  }

  lemma EntryFacts(m: Manager, known: set<VarId>, e: nat, p: Path)
    requires CacheInv(m, known) && e in m.caches && p in m.caches[e].fwd
    ensures var c := m.caches[e].fwd[p];
            && c in m.contexts && m.contexts[c].engine == e && c in m.caches[e].rev && m.caches[e].rev[c] == p
            && forall i :: 0 <= i < |p| ==> p[i] in known
  {
    EntryOkOf(m, known, e, p);
  }

  /** A task whose Fill nodes are exactly the chain of another one, bound to the same engine,
      holds the same contexts. */
  lemma SamePath(s: System, w: nat, t: nat)
    requires SysInv(s) && FullHold(s, w) && FullHold(s, t) && Cached(s, GenHeld(s, t))
    requires s.holds[w].engine == s.holds[t].engine && s.holds[w].chain.fills == s.holds[t].chain.Vars()
    ensures forall i :: 0 <= i < |s.holds[t].held| ==> s.holds[w].held[i] == s.holds[t].held[i]
  {
    hide TextInv, OwnedInv, ExclusiveInv, EventsInv, ExecsInv;
    hide RefInv, PinInv, PoolInv, BackendInv, CacheInv, HoldInv, HoldOk, Cached;
    CachedGenPath(s, t);
    HoldOkOf(s.mgr, s.holds, w);
    HoldOkOf(s.mgr, s.holds, t);
    var h := s.holds[t];
    forall i | 0 <= i < |h.held| ensures s.holds[w].held[i] == h.held[i] {
      HeldOkOf(s.mgr, h, i);
      HeldOkOf(s.mgr, s.holds[w], i);
      assert i < |h.chain.fills| ==> h.chain.Vars()[..i + 1] == h.chain.fills[..i + 1];
      assert i == |h.chain.fills| ==> h.chain.Vars()[..i + 1] == h.chain.Vars();
    }
  }

  /** A new task that fills the chain of t up to its cached Gen context, binds and finds
      everything there. */
  lemma HelperBinds(s: System, t: nat) returns (w: nat, st: Step, r: System)
    requires SysInv(s) && FullHold(s, t) && Cached(s, GenHeld(s, t))
    ensures w !in s.holds && w != t && st.Bind? && st.t == w && Enabled(s, st) && Apply(s, st) == Ok(r) && SysInv(r)
    ensures FullHold(r, w) && |r.holds[w].chain.fills| == |s.holds[t].held|
    ensures r.execs == s.execs[w := Exec(0, AtNode)] && t in r.holds && r.holds[t] == s.holds[t]
    ensures forall i :: 0 <= i < |s.holds[t].held| ==> r.holds[w].held[i] == s.holds[t].held[i]
    ensures r.ready == s.ready && r.started == s.started && r.broken == s.broken
  {
    hide SysInv, BindTask, Cached;
    CachedGenPath(s, t);
    w := FreshNat(s.holds.Keys);
    var h := s.holds[t];
    var ch := Chain(h.chain.Vars(), h.chain.gen, false);
    st := Bind(w, h.engine, ch);
    BindFacts(s, w, h.engine, ch);
    BindChanges(s, w, h.engine, ch);
    r := Apply(s, st).value;
    StillHeld(r, t, GenHeld(r, t));
    SamePath(r, w, t);
  }

  /** The helper makes the Gen context of t ready by filling the written variable into it. */
  lemma HelperFills(s: System, t: nat) returns (more: seq<Step>, n: System)
    requires SysInv(s) && Posts(s, t) && s.execs[t].next == |s.holds[t].chain.fills|
    requires FullHold(s, t) && Cached(s, GenHeld(s, t))
    ensures Runs(s, more, n) && SysInv(n) && NeverBinds(more, t)
    ensures t in n.holds && t in n.execs && n.holds[t] == s.holds[t] && n.execs[t] == s.execs[t]
    ensures s.ready <= n.ready && GenHeld(s, t) in n.ready && n.broken == s.broken
  {
    hide SysInv, BindTask, Cached, Runs;
    var c := GenHeld(s, t);
    var w, st, r := HelperBinds(s, t);
    NoSteps(s);
    RunsStep(s, [], s, st, r);
    PassedReady(s, t);
    var skips, q := SkipReady(r, w, |s.holds[t].chain.fills|);
    RunsConcat(s, [] + [st], r, skips, q);
    PostOwns(q, w);
    StepSafe(q, Advance(w));
    var p := Apply(q, Advance(w)).value;
    RunsStep(s, [] + [st] + skips, q, Advance(w), p);
    StepSafe(p, Complete(w, ""));
    n := Apply(p, Complete(w, "")).value;
    RunsStep(s, [] + [st] + skips + [Advance(w)], p, Complete(w, ""), n);
    more := [] + [st] + skips + [Advance(w)] + [Complete(w, "")];
  }

  lemma PassedReady(s: System, t: nat)
    requires SysInv(s) && t in s.holds
    ensures t in s.execs && forall i :: 0 <= i < s.execs[t].next && i < |s.holds[t].held| ==>
              s.holds[t].held[i] in s.ready
  {
    hide Inv, TextInv, OwnedInv, ExclusiveInv, EventsInv;
    assert ExecOk(s, t);
  }

  lemma PassByHelper(s: System, t: nat) returns (more: seq<Step>, n: System)
    requires SysInv(s) && CanFinish(s, t) && Posts(s, t) && s.execs[t].next >= |s.holds[t].chain.fills|
    requires s.holds[t].chain.gen in s.contents
    ensures Runs(s, more, n) && SysInv(n) && Through(s, n, t) && NeverBinds(more, t)
  {
    hide SysInv, Cached, Runs, Doomed;
    TaskShape(s, t);
    ReadyStarted(s);
    var r;
    more, r := HelperFills(s, t);
    StepSafe(r, Advance(t));
    n := Apply(r, Advance(t)).value;
    RunsStep(s, more, r, Advance(t), n);
    more := more + [Advance(t)];
  }

  /** Every node can be passed. */
  lemma PassNode(s: System, t: nat) returns (more: seq<Step>, n: System)
    requires SysInv(s) && CanFinish(s, t) && s.execs[t].next < |s.holds[t].held|
    ensures Runs(s, more, n) && SysInv(n) && Through(s, n, t) && NeverBinds(more, t)
  {
    hide SysInv, Cached, Runs, Doomed, GenBlocked, Through;
    var c := s.holds[t].held[s.execs[t].next];
    NoSteps(s);
    if s.execs[t].phase == Waiting {
      more, n := PassByWaiting(s, t);
    } else if s.execs[t].phase == InFlight {
      n := PassByStep(s, t, Complete(t, ""));
      RunsStep(s, [], s, Complete(t, ""), n);
      more := [] + [Complete(t, "")];
    } else if c in s.ready {
      n := PassByStep(s, t, Advance(t));
      RunsStep(s, [], s, Advance(t), n);
      more := [] + [Advance(t)];
    } else if c in s.started {
      more, n := PassByAwaiting(s, t);
    } else if s.execs[t].next < |s.holds[t].chain.fills| || s.holds[t].chain.gen !in s.contents {
      more, n := PassByPosting(s, t);
    } else {
      more, n := PassByHelper(s, t);
    }
  }

  lemma {:induction false} Finishes(s: System, t: nat) returns (more: seq<Step>, n: System)
    requires SysInv(s) && CanFinish(s, t) && s.execs[t].next <= |s.holds[t].held|
    ensures Runs(s, more, n) && NeverBinds(more, t) && AtEnd(n, t)
    decreases |s.holds[t].held| - s.execs[t].next
  {
    hide SysInv, Runs, Doomed, GenBlocked;
    if s.execs[t].next == |s.holds[t].held| {
      PastEnd(s, t);
      NoSteps(s);
      more, n := [], s;
    } else {
      var r, rest;
      more, r := PassNode(s, t);
      StillCanFinish(s, r, t);
      rest, n := Finishes(r, t);
      RunsConcat(s, more, r, rest, n);
      more := more + rest;
    }
  }

  lemma PastEnd(s: System, t: nat)
    requires SysInv(s) && t in s.holds && t in s.execs && s.execs[t].next >= |s.holds[t].held|
    ensures AtEnd(s, t)
  {
    hide Inv, TextInv, OwnedInv, ExclusiveInv, EventsInv;
    assert ExecOk(s, t);
  }

  /** Completion, exactly: from any reachable state a bound task can reach the end of its
      chain by some continuation if and only if it has not failed, no context on the rest of
      its path is doomed, and its own Generate would not be spoiled. */
  lemma FinishableIff(engines: set<nat>, steps: seq<Step>, s: System, t: nat)
    requires Runs(Init(engines), steps, s) && t in s.holds
    ensures (exists more, n :: Runs(s, more, n) && NeverBinds(more, t) && AtEnd(n, t)) <==> CanFinish(s, t)
  {
    hide SysInv, Runs, CanFinish, UniqueGens;
    RunsKeepUnique(engines, steps, s);
    BrokenNotReady(s);
    if CanFinish(s, t) {
      NextInRange(s, t);
      var more, n := Finishes(s, t);
    } else {
      forall more, n | Runs(s, more, n) && NeverBinds(more, t) ensures !AtEnd(n, t) {
        NeverFinishes(s, more, n, t);
        if AtEnd(n, t) { EndCanFinish(n, t); }
      }
    }
  }

  lemma NextInRange(s: System, t: nat)
    requires SysInv(s) && t in s.holds
    ensures t in s.execs && s.execs[t].next <= |s.holds[t].held|
  {
    hide Inv, TextInv, OwnedInv, ExclusiveInv, EventsInv;
    assert ExecOk(s, t);
  }

  // ---------- A run that strands a task behind a spoiled Generate ----------

  /** x and g are written, w is bound to fill both, u to fill x and generate g: u hits the
      context w made for [x, g], fills x, posts its Generate there, and w waits for it. */
  lemma SpoiledRun(e: nat, x: VarId, g: VarId, text: string, output: string, w: Chain, u: Chain)
      returns (s: System, c: nat)
    requires x != g && w.fills == [x, g] && u.fills == [x] && u.gen == g
    ensures Runs(Init({e}), [SetVar(x, text), SetVar(g, output), Bind(0, e, w), Bind(1, e, u),
                             Advance(1), Complete(1, ""), Advance(1), Advance(0), Advance(0)], s)
    ensures WaitsOn(s, 0, c) && WillSpoil(s, 1, c) && c !in s.broken && Doomed(s, c)
  {
    hide SysInv, Runs, BindTask;
    var s4 := TwoWritten(e, x, g, text, output, w, u);
    c := s4.holds[0].held[1];
    PassedReady(s4, 0);
    var r := s4;
    var steps := [SetVar(x, text), SetVar(g, output), Bind(0, e, w), Bind(1, e, u)];
    r := Then(Init({e}), steps, r, Advance(1));
    r := Then(Init({e}), steps + [Advance(1)], r, Complete(1, ""));
    r := Then(Init({e}), steps + [Advance(1)] + [Complete(1, "")], r, Advance(1));
    r := Then(Init({e}), steps + [Advance(1)] + [Complete(1, "")] + [Advance(1)], r, Advance(0));
    s := Then(Init({e}), steps + [Advance(1)] + [Complete(1, "")] + [Advance(1)] + [Advance(0)], r, Advance(0));
    assert steps + [Advance(1)] + [Complete(1, "")] + [Advance(1)] + [Advance(0)] + [Advance(0)]
        == [SetVar(x, text), SetVar(g, output), Bind(0, e, w), Bind(1, e, u),
            Advance(1), Complete(1, ""), Advance(1), Advance(0), Advance(0)];
    BrokenNotReady(s);
  }

  lemma Then(s0: System, steps: seq<Step>, r: System, st: Step) returns (n: System)
    requires SysInv(r) && Runs(s0, steps, r) && Enabled(r, st)
    requires !st.ExpirePrefix? && (st.SetVar? ==> st.v !in r.contents)
    ensures Apply(r, st) == Ok(n) && SysInv(n) && Runs(s0, steps + [st], n)
  {
    hide SysInv, Runs;
    StepSafe(r, st);
    n := Apply(r, st).value;
    RunsStep(s0, steps, r, st, n);
  }

  lemma TwoWritten(e: nat, x: VarId, g: VarId, text: string, output: string, w: Chain, u: Chain) returns (s: System)
    requires x != g && w.fills == [x, g] && u.fills == [x] && u.gen == g
    ensures Runs(Init({e}), [SetVar(x, text), SetVar(g, output), Bind(0, e, w), Bind(1, e, u)], s) && SysInv(s)
    ensures FullHold(s, 0) && FullHold(s, 1) && s.holds[0].chain == w && s.holds[1].chain == u
    ensures s.holds[0].held[0] == s.holds[1].held[0] && s.holds[0].held[1] == s.holds[1].held[1] != s.holds[0].held[0]
    ensures s.execs == map[0 := Exec(0, AtNode), 1 := Exec(0, AtNode)] && s.started == {} && s.ready == {}
            && s.broken == {}
    ensures s.contents == map[x := text, g := output]
  {
    hide SysInv, BindTask, Runs, Cached;
    var s2 := TwoSet(e, x, g, text, output);
    var s3 := Then(Init({e}), [SetVar(x, text), SetVar(g, output)], s2, Bind(0, e, w));
    BindChanges(s2, 0, e, w);
    BindFacts(s2, 0, e, w);
    WholeChainCached(s3, 0, u);
    assert [SetVar(x, text), SetVar(g, output)] + [Bind(0, e, w)]
        == [SetVar(x, text), SetVar(g, output), Bind(0, e, w)];
    s := Then(Init({e}), [SetVar(x, text), SetVar(g, output), Bind(0, e, w)], s3, Bind(1, e, u));
    BindChanges(s3, 1, e, u);
    assert [SetVar(x, text), SetVar(g, output), Bind(0, e, w)] + [Bind(1, e, u)]
        == [SetVar(x, text), SetVar(g, output), Bind(0, e, w), Bind(1, e, u)];
    StillHeld(s, 0, s.holds[0].held[0]);
    assert u.Vars() == w.fills;
    SamePath(s, 0, 1);
    InvOf(s);
    HeldDistinct(s.mgr, s.holds, s.contents.Keys, 0, 0, 1);
  }

  lemma TwoSet(e: nat, x: VarId, g: VarId, text: string, output: string) returns (s: System)
    requires x != g
    ensures Runs(Init({e}), [SetVar(x, text), SetVar(g, output)], s) && SysInv(s)
    ensures s == Init({e}).(contents := map[x := text, g := output])
  {
    hide SysInv, Runs;
    var s0 := Init({e});
    InitInv({e});
    NoSteps(s0);
    var s1 := Then(s0, [], s0, SetVar(x, text));
    s := Then(s0, [] + [SetVar(x, text)], s1, SetVar(g, output));
    assert [] + [SetVar(x, text)] + [SetVar(g, output)] == [SetVar(x, text), SetVar(g, output)];
  }

  lemma WholeChainCached(s: System, t: nat, ch: Chain)
    requires SysInv(s) && FullHold(s, t) && s.holds[t].chain.fills == ch.Vars()
    ensures s.holds[t].engine in s.mgr.caches && ch.Vars() in s.mgr.caches[s.holds[t].engine].fwd
  {
    hide TextInv, OwnedInv, ExclusiveInv, EventsInv, ExecsInv, RefInv, PinInv, PoolInv, BackendInv, CacheInv;
    var fills := s.holds[t].chain.fills;
    HoldOkOf(s.mgr, s.holds, t);
    HeldOkOf(s.mgr, s.holds[t], |fills| - 1);
    assert fills[..|fills|] == fills;
  }
}
