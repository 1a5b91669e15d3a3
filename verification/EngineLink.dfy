/** The serve layer and the engines' paged memories together.  Requests reach an engine
    some time after they were posted, and before the serve layer gives up on them; while a
    primitive is in flight its context grows token by token; a free takes effect at the
    engine when the context manager issues it.  The theorem is that in no such order an
    engine misses a parent, extends or frees a context above a child, or frees a block
    twice; its memory raises exactly when the block pool is exhausted.  (When the engine
    itself raises on an empty batch is in `EngineScheduling`.) */
module EngineLink {
  import opened Wrappers
  import opened ServeContexts
  import opened Execution
  import PM = PagedMemory
  import Addressing

  type Mems = map<nat, PM.Mem>

  /** Every context in an engine's memory is a live context of that engine, with the same
      parent. */
  ghost predicate MirrorOne(contexts: map<nat, Context>, e: nat, mem: PM.Mem) {
    && PM.MemInv(mem)
    && forall c :: c in mem.ctxs ==> c in contexts && contexts[c] == Context(e, mem.ctxs[c].parent)
  }

  ghost predicate Mirror(m: Manager, mems: Mems) {
    && mems.Keys == m.caches.Keys
    && forall e :: e in mems ==> MirrorOne(m.contexts, e, mems[e])
  }

  // ---------- Frees ----------

  /** `_free_context` with the engine's side of it. */
  function LinkedRelease(m: Manager, mems: Mems, c: nat): Result<(Manager, Mems)> {
    var n :- Release(m, c);
    if c in m.contexts && c !in n.contexts then
      if m.contexts[c].engine !in mems then Raised
      else
        var freed :- PM.Destroy(mems[m.contexts[c].engine], c);
        Ok((n, mems[m.contexts[c].engine := freed.1]))
    else Ok((n, mems))
  }

  /** `free_task_contexts`. */
  function LinkedFreeHeld(m: Manager, mems: Mems, held: seq<nat>, visited: set<nat>): Result<(Manager, Mems)>
    decreases |held|
  {
    if held == [] then Ok((m, mems))
    else
      var n := |held| - 1;
      if held[n] in visited then LinkedFreeHeld(m, mems, held[..n], visited)
      else
        var r :- LinkedRelease(m, mems, held[n]);
        LinkedFreeHeld(r.0, r.1, held[..n], visited + {held[n]})
  }

  function LinkedReleaseAll(m: Manager, mems: Mems, cs: seq<nat>): Result<(Manager, Mems)>
    decreases |cs|
  {
    if cs == [] then Ok((m, mems))
    else
      var r :- LinkedRelease(m, mems, cs[0]);
      LinkedReleaseAll(r.0, r.1, cs[1..])
  }

  /** `free_constant_prefix_contexts`. */
  function LinkedExpire(m: Manager, mems: Mems, v: VarId): Result<(Manager, Mems)> {
    if v !in m.pins then Raised
    else
      var r :- LinkedReleaseAll(m, mems, m.pins[v]);
      Ok((r.0.(pins := r.0.pins - {v}), r.1))
  }

  /** Only contexts that left the manager left the memories; the others are as they
      were, except for the list of their sub-contexts. */
  ghost predicate MemsPruned(n: Manager, mems: Mems, mems': Mems) {
    && mems'.Keys == mems.Keys
    && forall e, c :: e in mems && c in mems[e].ctxs && c in n.contexts ==>
         c in mems'[e].ctxs && mems'[e].ctxs[c].padded == mems[e].ctxs[c].padded
  }

  ghost predicate MemsShrunk(mems: Mems, mems': Mems) {
    && mems'.Keys == mems.Keys
    && forall e, c :: e in mems' && c in mems'[e].ctxs ==>
         && c in mems[e].ctxs && mems'[e].ctxs[c].padded == mems[e].ctxs[c].padded
         && mems'[e].ctxs[c].cells == mems[e].ctxs[c].cells
  }

  /** A leaf of the context tree is a leaf of the engine's tree. */
  lemma LeafHere(contexts: map<nat, Context>, e: nat, mem: PM.Mem, c: nat)
    requires MirrorOne(contexts, e, mem) && c in mem.ctxs
    requires forall d :: d in contexts ==> contexts[d].parent != Some(c)
    ensures mem.ctxs[c].kids == []
  {
    hide PM.Ownership, PM.AllCellsOk, PM.PoolOk, PM.Aligned;
    NonEmptyHasElement(mem.ctxs[c].kids);
    assert PM.NodeOk(mem, c);
  }

  lemma NonEmptyHasElement(s: seq<nat>)
    ensures s == [] || exists x :: x in s
  {
    if s != [] { assert s[0] in s; }
  }

  lemma DestroyHere(contexts: map<nat, Context>, e: nat, mem: PM.Mem, c: nat)
    requires MirrorOne(contexts, e, mem) && (c in mem.ctxs ==> mem.ctxs[c].kids == [])
    ensures PM.Destroy(mem, c).Ok?
    ensures var n := PM.Destroy(mem, c).value.1;
            && MirrorOne(contexts - {c}, e, n) && n.ctxs.Keys == mem.ctxs.Keys - {c}
            && (forall d :: d in n.ctxs ==>
                  && n.ctxs[d].padded == mem.ctxs[d].padded && n.ctxs[d].parent == mem.ctxs[d].parent
                  && n.ctxs[d].cells == mem.ctxs[d].cells)
  {
    hide PM.Ownership, PM.AllCellsOk, PM.PoolOk, PM.Aligned, PM.FreeAll, PM.Tree;
    PM.DestroyKeeps(mem, c);
  }

  lemma OtherEngine(contexts: map<nat, Context>, f: nat, mem: PM.Mem, c: nat)
    requires MirrorOne(contexts, f, mem) && c in contexts && contexts[c].engine != f
    ensures MirrorOne(contexts - {c}, f, mem)
  {
    hide PM.MemInv;
  }

  lemma MirrorFrame(m: Manager, n: Manager, mems: Mems)
    requires Mirror(m, mems) && n.caches.Keys == m.caches.Keys
    requires forall c :: c in m.contexts ==> c in n.contexts && n.contexts[c] == m.contexts[c]
    ensures Mirror(n, mems)
  {
    hide PM.MemInv;
    forall e | e in mems ensures MirrorOne(n.contexts, e, mems[e]) { assert MirrorOne(m.contexts, e, mems[e]); }
  }

  /** Releasing the surplus reference never makes an engine raise. */
  lemma LinkedReleaseKeeps(m: Manager, mems: Mems, hs: Holds, known: set<VarId>, c: nat)
    requires Structure(m, hs, known) && RefOver(m, hs, c) && Mirror(m, mems)
    ensures LinkedRelease(m, mems, c).Ok? && LinkedRelease(m, mems, c).value.0 == Release(m, c).value
    ensures Mirror(Release(m, c).value, LinkedRelease(m, mems, c).value.1)
    ensures MemsPruned(Release(m, c).value, mems, LinkedRelease(m, mems, c).value.1)
    ensures MemsShrunk(mems, LinkedRelease(m, mems, c).value.1)
  {
    hide Structure, Release, Inv, Mirror, MemsPruned, MemsShrunk, PM.Destroy, Pruned;
    ReleaseKeeps(m, hs, known, c);
    var n := Release(m, c).value;
    PrunedCachesKeys(m, n);
    EngineKnown(m, hs, known, c);
    if m.refs[c] > 1 {
      MirrorFrame(m, n, mems);
      MemsSame(n, mems);
    } else {
      DestroyKeepsMirror(m, n, mems, c);
    }
  }

  lemma PrunedCachesKeys(m: Manager, n: Manager)
    requires Pruned(m, n)
    ensures n.caches.Keys == m.caches.Keys
  {}

  /** Destroying a context that leaves the manager as a leaf. */
  lemma DestroyKeepsMirror(m: Manager, n: Manager, mems: Mems, c: nat)
    requires Mirror(m, mems) && c in m.contexts && m.contexts[c].engine in m.caches && NoChild(m, c)
    requires n.contexts == m.contexts - {c} && n.caches.Keys == m.caches.Keys
    ensures m.contexts[c].engine in mems
    ensures var e := m.contexts[c].engine;
            && PM.Destroy(mems[e], c).Ok?
            && var mems' := mems[e := PM.Destroy(mems[e], c).value.1];
            Mirror(n, mems') && MemsPruned(n, mems, mems') && MemsShrunk(mems, mems')
  {
    hide MirrorOne, PM.Destroy;
    var e := m.contexts[c].engine;
    var mem := mems[e];
    assert MirrorOne(m.contexts, e, mem);
    if c in mem.ctxs { LeafHere(m.contexts, e, mem, c); }
    DestroyHere(m.contexts, e, mem, c);
    var mems' := mems[e := PM.Destroy(mem, c).value.1];
    forall f | f in mems' ensures MirrorOne(n.contexts, f, mems'[f]) {
      if f != e { OtherEngine(m.contexts, f, mems[f], c); }
    }
  }

  lemma EngineKnown(m: Manager, hs: Holds, known: set<VarId>, c: nat)
    requires Structure(m, hs, known) && RefOver(m, hs, c)
    ensures c in m.contexts && c in m.refs && m.contexts[c].engine in m.caches
  {}

  lemma {:induction false} LinkedFreeHeldKeeps(m: Manager, mems: Mems, hs: Holds, known: set<VarId>, t: nat,
                                               visited: set<nat>)
    requires Inv(m, hs, known) && t in hs && Mirror(m, mems)
    requires forall i :: 0 <= i < |hs[t].held| ==> hs[t].held[i] !in visited
    ensures FreeHeld(m, hs[t].held, visited).Ok? && LinkedFreeHeld(m, mems, hs[t].held, visited).Ok?
    ensures var r := LinkedFreeHeld(m, mems, hs[t].held, visited).value;
            && r.0 == FreeHeld(m, hs[t].held, visited).value && Mirror(r.0, r.1)
            && MemsPruned(r.0, mems, r.1) && MemsShrunk(mems, r.1)
    decreases |hs[t].held|
  {
    hide Inv, Release, LinkedRelease, Mirror, MemsPruned, MemsShrunk, Pruned;
    var h := hs[t];
    FreeHeldKeeps(m, hs, known, t, visited);
    if h.held == [] {
      MemsSame(m, mems);
    } else {
      var n := |h.held| - 1;
      forall i | 0 <= i < n ensures h.held[i] != h.held[n] { HeldDistinct(m, hs, known, t, i, n); }
      FreeLast(m, hs, known, t);
      ReleaseLastLinked(m, mems, hs, known, t);
      var r := LinkedRelease(m, mems, h.held[n]).value;
      var hs' := hs[t := h.(held := h.held[..n])];
      LinkedFreeHeldKeeps(r.0, r.1, hs', known, t, visited + {h.held[n]});
      FreeHeldKeeps(r.0, hs', known, t, visited + {h.held[n]});
      var q := LinkedFreeHeld(r.0, r.1, hs'[t].held, visited + {h.held[n]}).value;
      PrunedContexts(r.0, q.0);
      MemsTransitive(r.0, mems, r.1, q.0, q.1);
    }
  }

  lemma ReleaseLastLinked(m: Manager, mems: Mems, hs: Holds, known: set<VarId>, t: nat)
    requires Inv(m, hs, known) && t in hs && hs[t].held != [] && Mirror(m, mems)
    ensures var c := hs[t].held[|hs[t].held| - 1];
            && Release(m, c).Ok? && LinkedRelease(m, mems, c).Ok?
            && LinkedRelease(m, mems, c).value.0 == Release(m, c).value
            && Mirror(Release(m, c).value, LinkedRelease(m, mems, c).value.1)
            && MemsPruned(Release(m, c).value, mems, LinkedRelease(m, mems, c).value.1)
            && MemsShrunk(mems, LinkedRelease(m, mems, c).value.1)
  {
    hide HoldInv, PinInv, CacheInv, PoolInv, Release, RefOver, RefInv, LinkedRelease, Mirror;
    var n := |hs[t].held| - 1;
    HeldLive(m, hs, known, t, n);
    ShrinkKeepsHolds(m, hs, t);
    ShrinkRefOver(m, hs, known, t);
    var hs' := hs[t := hs[t].(held := hs[t].held[..n])];
    ReleaseKeeps(m, hs', known, hs[t].held[n]);
    LinkedReleaseKeeps(m, mems, hs', known, hs[t].held[n]);
  }

  /** Releasing the first pin of `v`. */
  lemma UnpinLinked(m: Manager, mems: Mems, hs: Holds, known: set<VarId>, v: VarId)
    requires Inv(m, hs, known) && v in m.pins && m.pins[v] != [] && Mirror(m, mems)
    ensures var c := m.pins[v][0];
            var pins' := m.pins[v := m.pins[v][1..]];
            && Release(m, c).Ok? && LinkedRelease(m, mems, c).Ok?
            && LinkedRelease(m, mems, c).value.0 == Release(m, c).value
            && Inv(Release(m, c).value.(pins := pins'), hs, known)
            && Mirror(Release(m, c).value, LinkedRelease(m, mems, c).value.1)
            && MemsPruned(Release(m, c).value, mems, LinkedRelease(m, mems, c).value.1)
            && MemsShrunk(mems, LinkedRelease(m, mems, c).value.1)
            && Pruned(m, Release(m, c).value)
  {
    hide HoldInv, PinInv, CacheInv, PoolInv, Release, RefOver, RefInv, LinkedRelease, MirrorOne;
    var cs := m.pins[v];
    var pins' := m.pins[v := cs[1..]];
    var n := m.(pins := pins');
    UnpinRefOver(m, hs, known, v);
    StructureIgnoresOtherPins(m, n, hs, known);
    ReleaseKeeps(n, hs, known, cs[0]);
    LinkedReleaseKeeps(n, mems, hs, known, cs[0]);
    ReleaseIgnoresPins(m, pins', cs[0]);
    LinkedIgnoresPins(m, mems, pins', cs[0]);
    LinkedIsRelease(m, mems, cs[0]);
  }

  lemma {:induction false} LinkedReleaseAllKeeps(m: Manager, mems: Mems, hs: Holds, known: set<VarId>, v: VarId)
    requires Inv(m, hs, known) && v in m.pins && Mirror(m, mems)
    ensures ReleaseAll(m, m.pins[v]).Ok? && LinkedReleaseAll(m, mems, m.pins[v]).Ok?
    ensures var r := LinkedReleaseAll(m, mems, m.pins[v]).value;
            && r.0 == ReleaseAll(m, m.pins[v]).value && Mirror(r.0, r.1)
            && MemsPruned(r.0, mems, r.1) && MemsShrunk(mems, r.1)
            && Pruned(m, r.0)
    decreases |m.pins[v]|
  {
    hide Inv, Release, LinkedRelease, MirrorOne, MemsPruned, MemsShrunk, Pruned;
    var cs := m.pins[v];
    ReleaseAllKeeps(m, hs, known, v);
    if cs == [] {
      MemsSame(m, mems);
    } else {
      var pins' := m.pins[v := cs[1..]];
      UnpinLinked(m, mems, hs, known, v);
      var m1 := Release(m, cs[0]).value;
      var mems1 := LinkedRelease(m, mems, cs[0]).value.1;
      var n := m1.(pins := pins');
      LinkedReleaseAllKeeps(n, mems1, hs, known, v);
      ReleaseAllIgnoresPins(m1, pins', cs[1..]);
      LinkedAllIgnoresPins(m1, mems1, pins', cs[1..]);
      LinkedAllIsReleaseAll(m1, mems1, cs[1..]);
      var r, q := LinkedReleaseAll(m, mems, cs).value, LinkedReleaseAll(n, mems1, cs[1..]).value;
      PrunedContexts(n, q.0);
      MemsTransitive(m1, mems, mems1, q.0, q.1);
      MemsIgnorePins(q.0, r.0, mems, r.1);
    }
  }

  lemma MemsSame(m: Manager, mems: Mems)
    ensures MemsPruned(m, mems, mems) && MemsShrunk(mems, mems)
  {}

  lemma PrunedContexts(m: Manager, n: Manager)
    requires Pruned(m, n)
    ensures n.contexts.Keys <= m.contexts.Keys
  {}

  lemma MemsIgnorePins(m: Manager, n: Manager, mems: Mems, mems': Mems)
    requires MemsPruned(m, mems, mems') && n.contexts == m.contexts
    ensures MemsPruned(n, mems, mems')
  {}

  lemma MemsTransitive(m1: Manager, mems: Mems, mems1: Mems, m2: Manager, mems2: Mems)
    requires MemsPruned(m1, mems, mems1) && MemsShrunk(mems, mems1)
    requires MemsPruned(m2, mems1, mems2) && MemsShrunk(mems1, mems2) && m2.contexts.Keys <= m1.contexts.Keys
    ensures MemsPruned(m2, mems, mems2) && MemsShrunk(mems, mems2)
  {}

  lemma {:induction false} LinkedAllIsReleaseAll(m: Manager, mems: Mems, cs: seq<nat>)
    requires LinkedReleaseAll(m, mems, cs).Ok?
    ensures ReleaseAll(m, cs).Ok? && LinkedReleaseAll(m, mems, cs).value.0 == ReleaseAll(m, cs).value
    decreases |cs|
  {
    hide LinkedRelease, Release;
    if cs != [] {
      LinkedIsRelease(m, mems, cs[0]);
      var r := LinkedRelease(m, mems, cs[0]).value;
      LinkedAllIsReleaseAll(r.0, r.1, cs[1..]);
    }
  }

  lemma LinkedIsRelease(m: Manager, mems: Mems, c: nat)
    requires LinkedRelease(m, mems, c).Ok?
    ensures Release(m, c).Ok? && LinkedRelease(m, mems, c).value.0 == Release(m, c).value
  {
    hide Release, PM.Destroy;
  }

  lemma LinkedIgnoresPins(m: Manager, mems: Mems, pins: map<VarId, seq<nat>>, c: nat)
    ensures LinkedRelease(m.(pins := pins), mems, c) ==
            match LinkedRelease(m, mems, c) { case Ok(r) => Ok((r.0.(pins := pins), r.1)) case Raised => Raised }
  {
    hide Release, PM.Destroy;
    ReleaseIgnoresPins(m, pins, c);
  }

  lemma {:induction false} LinkedAllIgnoresPins(m: Manager, mems: Mems, pins: map<VarId, seq<nat>>, cs: seq<nat>)
    ensures LinkedReleaseAll(m.(pins := pins), mems, cs) ==
            match LinkedReleaseAll(m, mems, cs) { case Ok(r) => Ok((r.0.(pins := pins), r.1)) case Raised => Raised }
    decreases |cs|
  {
    hide LinkedRelease;
    if cs != [] {
      LinkedIgnoresPins(m, mems, pins, cs[0]);
      if LinkedRelease(m, mems, cs[0]).Ok? {
        var r := LinkedRelease(m, mems, cs[0]).value;
        LinkedAllIgnoresPins(r.0, r.1, pins, cs[1..]);
      }
    }
  }

  // ---------- The linked system ----------

  datatype Linked = Linked(sys: System, mems: Mems)

  /** A step of the serve layer, the arrival of a posted request at its engine, or an
      engine iteration that appends tokens to a context in flight. */
  datatype LinkStep = Serve(step: Step) | Deliver(t: nat) | Tokens(t: nat, n: nat)

  predicate InMem(l: Linked, e: nat, c: nat) {
    e in l.mems && c in l.mems[e].ctxs
  }

  /** The context a task's primitive is in flight on. */
  function Target(s: System, t: nat): nat
    requires HasPhase(s, t, InFlight) && s.execs[t].next < |s.holds[t].held|
  {
    s.holds[t].held[s.execs[t].next]
  }

  predicate Flying(s: System, t: nat) {
    HasPhase(s, t, InFlight) && s.execs[t].next < |s.holds[t].held|
  }

  /** A response, or an error from the engine, needs the request to have arrived. */
  predicate LinkEnabled(l: Linked, st: LinkStep) {
    match st
    case Serve(step) =>
      && Enabled(l.sys, step)
      && (step.Complete? ==> InMem(l, l.sys.holds[step.t].engine, Target(l.sys, step.t)))
      && (step.Fail? ==> step.landed == InMem(l, l.sys.holds[step.t].engine, Target(l.sys, step.t)))
    case Deliver(t) => Flying(l.sys, t) && !InMem(l, l.sys.holds[t].engine, Target(l.sys, t))
    case Tokens(t, _) => Flying(l.sys, t) && InMem(l, l.sys.holds[t].engine, Target(l.sys, t))
  }

  /** `Raised` is an exception in the serve layer or in an engine. */
  function LinkApply(l: Linked, st: LinkStep): Result<Linked>
    requires LinkEnabled(l, st)
  {
    match st
    case Serve(Finish(t)) =>
      var r :- LinkedFreeHeld(l.sys.mgr, l.mems, l.sys.holds[t].held, {});
      Ok(Linked(WithManager(l.sys, r.0).(holds := l.sys.holds - {t}, execs := l.sys.execs - {t}), r.1))
    case Serve(ExpirePrefix(v)) =>
      var r :- LinkedExpire(l.sys.mgr, l.mems, v);
      Ok(Linked(WithManager(l.sys, r.0), r.1))
    case Serve(step) =>
      var s :- Apply(l.sys, step);
      Ok(l.(sys := s))
    case Deliver(t) =>
      var e, c := l.sys.holds[t].engine, Target(l.sys, t);
      if e !in l.mems || c !in l.sys.mgr.contexts then Raised
      else
        var mem :- PM.Bind(l.mems[e], c, l.sys.mgr.contexts[c].parent);
        Ok(l.(mems := l.mems[e := mem]))
    case Tokens(t, n) =>
      var e, c := l.sys.holds[t].engine, Target(l.sys, t);
      if PM.Extend(l.mems[e], c, n).0 then Ok(Appended(l, t, n)) else Raised
  }

  /** The tokens an iteration got, all of them or as many as the pool had room for. */
  function Appended(l: Linked, t: nat, n: nat): Linked
    requires LinkEnabled(l, Tokens(t, n))
  {
    var e, c := l.sys.holds[t].engine, Target(l.sys, t);
    l.(mems := l.mems[e := PM.Extend(l.mems[e], c, n).1])
  }

  /** The state a step leaves: a raise in an engine's iteration keeps the tokens it got;
      any other raise ends the run. */
  predicate LinkLeaves(l: Linked, st: LinkStep, n: Linked)
    requires LinkEnabled(l, st)
  {
    match st
    case Tokens(t, k) => n == Appended(l, t, k)
    case _ => LinkApply(l, st) == Ok(n)
  }

  /** The engine's pool has room for the tokens of an iteration. */
  ghost predicate RoomFor(l: Linked, t: nat, n: nat)
    requires LinkEnabled(l, Tokens(t, n)) && l.mems[l.sys.holds[t].engine].pool.size.Some?
  {
    var mem := l.mems[l.sys.holds[t].engine];
    PM.HasRoom(mem.bs, mem.pool, |mem.ctxs[Target(l.sys, t)].cells.blocks|, n)
  }

  /** Ready contexts are in their engine's memory, and only ready contexts have been
      padded, that is, have had a child. */
  ghost predicate Settled(l: Linked) {
    && (forall c :: c in l.sys.ready && c in l.sys.mgr.contexts ==> InMem(l, l.sys.mgr.contexts[c].engine, c))
    && (forall e, c :: InMem(l, e, c) && l.mems[e].ctxs[c].padded ==> c in l.sys.ready)
  }

  ghost predicate LinkInv(l: Linked) {
    SysInv(l.sys) && Mirror(l.sys.mgr, l.mems) && Settled(l)
  }

  lemma FlyingFacts(l: Linked, t: nat)
    requires LinkInv(l) && Flying(l.sys, t)
    ensures var e, c := l.sys.holds[t].engine, Target(l.sys, t);
            && e in l.mems && c in l.sys.mgr.contexts && l.sys.mgr.contexts[c].engine == e
            && MirrorOne(l.sys.mgr.contexts, e, l.mems[e])
            && c !in l.sys.ready && (c in l.mems[e].ctxs ==> !l.mems[e].ctxs[c].padded)
            && (l.sys.mgr.contexts[c].parent.Some? ==>
                  l.sys.mgr.contexts[c].parent.value in l.sys.ready && InMem(l, e, l.sys.mgr.contexts[c].parent.value))
  {
    hide Inv, TextInv, OwnedInv, ExclusiveInv, MirrorOne;
    var s := l.sys;
    var c := Target(s, t);
    AdvanceContext(s, t);
    HeldEngineKnown(s, t);
    assert c in s.mgr.backend;
    BackendParent(s.mgr, s.holds, s.contents.Keys, c);
    if s.mgr.contexts[c].parent.Some? { ParentLiveSys(s, c); }
    assert InMem(l, s.holds[t].engine, c) ==>
             InMem(l, s.holds[t].engine, c) && (l.mems[s.holds[t].engine].ctxs[c].padded ==> c in s.ready);
  }

  lemma HeldEngineKnown(s: System, t: nat)
    requires SysInv(s) && t in s.holds
    ensures s.holds[t].engine in s.mgr.caches
  {
    hide TextInv, OwnedInv, ExclusiveInv, EventsInv, ExecsInv, CacheInv, PinInv, RefInv;
    HoldOkOf(s.mgr, s.holds, t);
  }

  lemma ParentLiveSys(s: System, c: nat)
    requires SysInv(s) && c in s.mgr.contexts && s.mgr.contexts[c].parent.Some?
    ensures s.mgr.contexts[c].parent.value in s.mgr.contexts
    ensures s.mgr.contexts[s.mgr.contexts[c].parent.value].engine == s.mgr.contexts[c].engine
  {
    hide TextInv, OwnedInv, ExclusiveInv, EventsInv, ExecsInv, CacheInv, PinInv, HoldInv, PoolInv, BackendInv;
    ParentLive(s.mgr, s.holds, s.contents.Keys, c);
  }

  // ---------- Every linked step keeps the invariant ----------

  lemma DeliverKeeps(l: Linked, t: nat)
    requires LinkInv(l) && LinkEnabled(l, Deliver(t))
    ensures LinkApply(l, Deliver(t)).Ok? && LinkInv(LinkApply(l, Deliver(t)).value)
  {
    hide SysInv, PM.MemInv, PM.Adopt;
    FlyingFacts(l, t);
    var e, c := l.sys.holds[t].engine, Target(l.sys, t);
    var mem := l.mems[e];
    var parent := l.sys.mgr.contexts[c].parent;
    PM.BindKeeps(mem, c, parent);
    BindLinks(mem, c, parent);
    var n := LinkApply(l, Deliver(t)).value;
    forall f | f in n.mems ensures MirrorOne(n.sys.mgr.contexts, f, n.mems[f]) {
      assert MirrorOne(l.sys.mgr.contexts, f, l.mems[f]);
    }
    DeliverSettled(l, n, e, c);
  }

  /** Binding adds one unpadded context and pads at most its parent. */
  lemma BindLinks(mem: PM.Mem, c: nat, parent: Option<nat>)
    requires PM.MemInv(mem) && c !in mem.ctxs && (parent.Some? ==> parent.value in mem.ctxs)
    ensures PM.Bind(mem, c, parent).Ok?
    ensures var n := PM.Bind(mem, c, parent).value;
            && n.ctxs.Keys == mem.ctxs.Keys + {c} && n.ctxs[c].parent == parent && !n.ctxs[c].padded
            && (forall d :: d in mem.ctxs ==> n.ctxs[d].parent == mem.ctxs[d].parent)
            && (forall d :: d in mem.ctxs && Some(d) != parent ==> n.ctxs[d] == mem.ctxs[d])
  {
    hide PM.Ownership, PM.AllCellsOk, PM.Aligned, PM.Tree, PM.CellsOk, PM.Adopt;
    if parent.Some? { PM.AdoptShape(mem, parent.value, c); }
  }

  lemma DeliverSettled(l: Linked, n: Linked, e: nat, c: nat)
    requires Settled(l) && e in l.mems && n.sys == l.sys && e in n.mems && n.mems == l.mems[e := n.mems[e]]
    requires c !in l.mems[e].ctxs && n.mems[e].ctxs.Keys == l.mems[e].ctxs.Keys + {c} && !n.mems[e].ctxs[c].padded
    requires c in l.sys.mgr.contexts
    requires l.sys.mgr.contexts[c].parent.Some? ==> l.sys.mgr.contexts[c].parent.value in l.sys.ready
    requires forall d :: d in l.mems[e].ctxs && Some(d) != l.sys.mgr.contexts[c].parent ==>
               n.mems[e].ctxs[d] == l.mems[e].ctxs[d]
    ensures Settled(n)
  {
    forall f, d | InMem(n, f, d) && n.mems[f].ctxs[d].padded ensures d in n.sys.ready {
      assert (f == e && Some(d) == l.sys.mgr.contexts[c].parent) || InMem(l, f, d);
    }
  }

  lemma TokensKeeps(l: Linked, t: nat, k: nat)
    requires LinkInv(l) && LinkEnabled(l, Tokens(t, k))
    ensures LinkInv(Appended(l, t, k))
  {
    hide SysInv, PM.MemInv, PM.AllocN;
    FlyingFacts(l, t);
    var e, c := l.sys.holds[t].engine, Target(l.sys, t);
    PM.ExtendKeeps(l.mems[e], c, k);
    var n := Appended(l, t, k);
    forall f | f in n.mems ensures MirrorOne(n.sys.mgr.contexts, f, n.mems[f]) {
      assert MirrorOne(l.sys.mgr.contexts, f, l.mems[f]);
    }
    forall f, d | InMem(n, f, d) && n.mems[f].ctxs[d].padded ensures d in n.sys.ready { assert InMem(l, f, d); }
    forall d | d in n.sys.ready && d in n.sys.mgr.contexts ensures InMem(n, n.sys.mgr.contexts[d].engine, d) {
      assert InMem(l, l.sys.mgr.contexts[d].engine, d);
    }
  }

  lemma TokensRaiseIff(l: Linked, t: nat, k: nat)
    requires LinkInv(l) && LinkEnabled(l, Tokens(t, k))
    ensures l.mems[l.sys.holds[t].engine].pool.size.Some?
    ensures LinkApply(l, Tokens(t, k)).Raised? <==> !RoomFor(l, t, k)
  {
    hide SysInv, PM.Tree, PM.AllCellsOk, PM.Ownership, PM.Aligned, PM.HasRoom;
    var e := l.sys.holds[t].engine;
    assert MirrorOne(l.sys.mgr.contexts, e, l.mems[e]);
    PM.ExtendSucceedsIff(l.mems[e], Target(l.sys, t), k);
  }

  lemma PrunedSettled(l: Linked, n: Linked)
    requires Settled(l) && MemsPruned(n.sys.mgr, l.mems, n.mems) && MemsShrunk(l.mems, n.mems)
             && Pruned(l.sys.mgr, n.sys.mgr)
    requires n.sys.ready == l.sys.ready * n.sys.mgr.contexts.Keys && Mirror(n.sys.mgr, n.mems)
    ensures Settled(n)
  {
    hide PM.MemInv;
    forall f, d | InMem(n, f, d) && n.mems[f].ctxs[d].padded ensures d in n.sys.ready {
      assert InMem(l, f, d);
      assert MirrorOne(n.sys.mgr.contexts, f, n.mems[f]);
    }
    forall d | d in n.sys.ready && d in n.sys.mgr.contexts ensures InMem(n, n.sys.mgr.contexts[d].engine, d) {
      assert InMem(l, l.sys.mgr.contexts[d].engine, d);
    }
  }

  lemma LinkedFinishKeeps(l: Linked, t: nat)
    requires LinkInv(l) && LinkEnabled(l, Serve(Finish(t)))
    ensures LinkApply(l, Serve(Finish(t))).Ok? && LinkInv(LinkApply(l, Serve(Finish(t))).value)
    ensures Apply(l.sys, Finish(t)) == Ok(LinkApply(l, Serve(Finish(t))).value.sys)
  {
    hide Inv, TextInv, OwnedInv, ExclusiveInv, EventsInv, ExecsInv, MirrorOne, FreeHeld, LinkedFreeHeld;
    FinishKeeps(l.sys, t);
    LinkedFreeHeldKeeps(l.sys.mgr, l.mems, l.sys.holds, l.sys.contents.Keys, t, {});
    FreeHeldKeeps(l.sys.mgr, l.sys.holds, l.sys.contents.Keys, t, {});
    PrunedSettled(l, LinkApply(l, Serve(Finish(t))).value);
  }

  lemma LinkedExpireKeeps(l: Linked, v: VarId)
    requires LinkInv(l)
    ensures LinkApply(l, Serve(ExpirePrefix(v))).Ok? <==> v in l.sys.mgr.pins
    ensures v in l.sys.mgr.pins ==> LinkInv(LinkApply(l, Serve(ExpirePrefix(v))).value)
  {
    hide SysInv, Mirror, Settled, Pruned, MemsShrunk, MemsPruned, LinkedExpire, Expire;
    if v in l.sys.mgr.pins {
      InvOf(l.sys);
      ExpireStepKeeps(l.sys, v);
      LinkedExpireSpec(l.sys.mgr, l.mems, l.sys.holds, l.sys.contents.Keys, v);
      PrunedSettled(l, LinkApply(l, Serve(ExpirePrefix(v))).value);
    } else {
      NotPinned(l.sys.mgr, l.mems, v);
    }
  }

  lemma NotPinned(m: Manager, mems: Mems, v: VarId)
    requires v !in m.pins
    ensures LinkedExpire(m, mems, v) == Raised
  {}

  lemma LinkedExpireSpec(m: Manager, mems: Mems, hs: Holds, known: set<VarId>, v: VarId)
    requires Inv(m, hs, known) && v in m.pins && Mirror(m, mems)
    ensures LinkedExpire(m, mems, v).Ok? && Expire(m, v).Ok?
    ensures var r := LinkedExpire(m, mems, v).value;
            && r.0 == Expire(m, v).value && Mirror(r.0, r.1)
            && MemsPruned(r.0, mems, r.1) && MemsShrunk(mems, r.1) && Pruned(m, r.0)
  {
    hide Inv, MirrorOne, ReleaseAll, LinkedReleaseAll;
    LinkedReleaseAllKeeps(m, mems, hs, known, v);
    ExpireKeeps(m, hs, known, v);
  }

  /** The steps of the serve layer that free nothing. */
  lemma OtherServeKeeps(l: Linked, st: Step)
    requires LinkInv(l) && LinkEnabled(l, Serve(st)) && !st.Finish? && !st.ExpirePrefix?
    requires st.SetVar? ==> st.v !in l.sys.contents
    ensures LinkApply(l, Serve(st)).Ok? && LinkInv(LinkApply(l, Serve(st)).value)
  {
    hide SysInv, Mirror, BindTask;
    StepSafe(l.sys, st);
    var n := LinkApply(l, Serve(st)).value;
    match st
    case Bind(t, e, ch) =>
      BindExtends(l.sys, t, e, ch);
      MirrorFrame(l.sys.mgr, n.sys.mgr, l.mems);
      BindSettled(l, n);
    case Complete(t, output) =>
      MirrorFrame(l.sys.mgr, n.sys.mgr, l.mems);
      CompleteSettled(l, n, t, output);
    case _ =>
      MirrorFrame(l.sys.mgr, n.sys.mgr, l.mems);
      SameSettled(l, n);
  }

  lemma SameSettled(l: Linked, n: Linked)
    requires Settled(l) && n.mems == l.mems && n.sys.ready == l.sys.ready && n.sys.mgr.contexts == l.sys.mgr.contexts
    ensures Settled(n)
  {
    forall f, d | InMem(n, f, d) && n.mems[f].ctxs[d].padded ensures d in n.sys.ready { assert InMem(l, f, d); }
    forall d | d in n.sys.ready && d in n.sys.mgr.contexts ensures InMem(n, n.sys.mgr.contexts[d].engine, d) {
      assert InMem(l, l.sys.mgr.contexts[d].engine, d);
    }
  }

  lemma BindExtends(s: System, t: nat, e: nat, ch: Chain)
    requires SysInv(s) && Enabled(s, Bind(t, e, ch))
    ensures Apply(s, Bind(t, e, ch)).Ok?
    ensures Extended(s.mgr, Apply(s, Bind(t, e, ch)).value.mgr, ch.fills[0])
    ensures s.ready <= s.mgr.contexts.Keys
  {
    hide Inv, TextInv, OwnedInv, ExclusiveInv, ExecsInv, BindTask;
    BindTaskKeeps(s.mgr, s.holds, s.contents.Keys, t, e, ch);
  }

  lemma BindSettled(l: Linked, n: Linked)
    requires Settled(l) && n.mems == l.mems && n.sys.ready == l.sys.ready <= l.sys.mgr.contexts.Keys
    requires forall c :: c in l.sys.mgr.contexts ==>
               c in n.sys.mgr.contexts && n.sys.mgr.contexts[c] == l.sys.mgr.contexts[c]
    ensures Settled(n)
  {
    forall f, d | InMem(n, f, d) && n.mems[f].ctxs[d].padded ensures d in n.sys.ready { assert InMem(l, f, d); }
    forall d | d in n.sys.ready && d in n.sys.mgr.contexts ensures InMem(n, n.sys.mgr.contexts[d].engine, d) {
      assert InMem(l, l.sys.mgr.contexts[d].engine, d);
    }
  }

  lemma CompleteSettled(l: Linked, n: Linked, t: nat, output: string)
    requires LinkInv(l) && LinkEnabled(l, Serve(Complete(t, output)))
             && LinkApply(l, Serve(Complete(t, output))) == Ok(n)
    ensures Settled(n)
  {
    hide SysInv, Mirror;
    FlyingFacts(l, t);
    forall f, d | InMem(n, f, d) && n.mems[f].ctxs[d].padded ensures d in n.sys.ready { assert InMem(l, f, d); }
    forall d | d in n.sys.ready && d in n.sys.mgr.contexts ensures InMem(n, n.sys.mgr.contexts[d].engine, d) {
      assert d != Target(l.sys, t) ==> InMem(l, l.sys.mgr.contexts[d].engine, d);
    }
  }

  /** Writing a variable twice, or expiring a constant prefix that pins nothing. */
  predicate Refused(s: System, st: Step) {
    (st.SetVar? && st.v in s.contents) || (st.ExpirePrefix? && st.v !in s.mgr.pins)
  }

  /** A linked step raises, in the serve layer or in an engine, exactly when the serve layer
      refuses it or an engine's block pool has no room for an iteration's tokens; raised or
      not, the invariant is kept. */
  lemma LinkStepSafe(l: Linked, st: LinkStep)
    requires LinkInv(l) && LinkEnabled(l, st)
    ensures st.Tokens? ==> l.mems[l.sys.holds[st.t].engine].pool.size.Some?
    ensures LinkApply(l, st).Raised? <==>
              (st.Serve? && Refused(l.sys, st.step)) || (st.Tokens? && !RoomFor(l, st.t, st.n))
    ensures forall n :: LinkLeaves(l, st, n) ==> LinkInv(n)
  {
    hide LinkInv, LinkedFreeHeld, LinkedExpire, Apply, PM.Bind, PM.Extend, RoomFor, Appended;
    match st
    case Deliver(t) => DeliverKeeps(l, t);
    case Tokens(t, k) =>
      TokensKeeps(l, t, k);
      TokensRaiseIff(l, t, k);
    case Serve(step) =>
      match step
      case Finish(t) => LinkedFinishKeeps(l, t);
      case ExpirePrefix(v) => LinkedExpireKeeps(l, v);
      case SetVar(v, text) => LinkedSetVarKeeps(l, v, text);
      case _ => OtherServeKeeps(l, step);
  }

  lemma LinkedSetVarKeeps(l: Linked, v: VarId, text: string)
    requires LinkInv(l)
    ensures LinkApply(l, Serve(SetVar(v, text))).Raised? <==> v in l.sys.contents
    ensures v !in l.sys.contents ==> LinkInv(LinkApply(l, Serve(SetVar(v, text))).value)
  {
    hide LinkInv;
    if v !in l.sys.contents { OtherServeKeeps(l, SetVar(v, text)); }
  }

  // ---------- Whole runs ----------

  ghost predicate LinkRuns(l0: Linked, steps: seq<LinkStep>, l: Linked)
    decreases |steps|
  {
    if steps == [] then l == l0
    else
      var k := |steps| - 1;
      exists r :: LinkRuns(l0, steps[..k], r) && LinkEnabled(r, steps[k]) && LinkLeaves(r, steps[k], l)
  }

  /** One paged memory per engine, each with its own block size and pool. */
  function LinkInit(sizes: map<nat, (PM.BlockSize, nat)>): Linked {
    Linked(Init(sizes.Keys), map e | e in sizes :: Addressing.EmptyMem(sizes[e].0, sizes[e].1))
  }

  lemma LinkInitInv(sizes: map<nat, (PM.BlockSize, nat)>)
    ensures LinkInv(LinkInit(sizes))
  {
    hide SysInv;
    var l := LinkInit(sizes);
    InitInv(sizes.Keys);
    forall e | e in l.mems ensures MirrorOne(l.sys.mgr.contexts, e, l.mems[e]) {
      assert Addressing.MemRuns(Addressing.EmptyMem(sizes[e].0, sizes[e].1), [], l.mems[e]);
      Addressing.MemRunsKeep(sizes[e].0, sizes[e].1, [], l.mems[e]);
    }
  }

  lemma {:induction false} LinkRunsKeep(sizes: map<nat, (PM.BlockSize, nat)>, steps: seq<LinkStep>, l: Linked)
    requires LinkRuns(LinkInit(sizes), steps, l)
    ensures LinkInv(l)
    decreases |steps|
  {
    hide LinkInv;
    if steps == [] {
      LinkInitInv(sizes);
    } else {
      var k := |steps| - 1;
      var r :| LinkRuns(LinkInit(sizes), steps[..k], r) && LinkEnabled(r, steps[k]) && LinkLeaves(r, steps[k], l);
      LinkRunsKeep(sizes, steps[..k], r);
      LinkStepSafe(r, steps[k]);
    }
  }

  /** End to end, in every interleaving of any tasks over any engines: an engine never
      misses a parent, never frees a context above a child and never frees a block twice.
      Its memory raises exactly when the pool has no room for an iteration's tokens. */
  lemma EngineMemoryRaisesIff(sizes: map<nat, (PM.BlockSize, nat)>, steps: seq<LinkStep>, l: Linked, st: LinkStep)
    requires LinkRuns(LinkInit(sizes), steps, l) && LinkEnabled(l, st)
    ensures st.Tokens? ==> l.mems[l.sys.holds[st.t].engine].pool.size.Some?
    ensures LinkApply(l, st).Raised? <==>
              (st.Serve? && Refused(l.sys, st.step)) || (st.Tokens? && !RoomFor(l, st.t, st.n))
  {
    hide LinkInv, RoomFor;
    LinkRunsKeep(sizes, steps, l);
    LinkStepSafe(l, st);
  }

  /** A request that reaches its engine only after the serve layer gave up on it and freed
      the context is outside these runs, and here is why: the engine raises exactly when it
      no longer knows the parent, and otherwise keeps a context nobody will ever free. */
  lemma LateDelivery(l: Linked, e: nat, c: nat, parent: Option<nat>)
    requires LinkInv(l) && e in l.mems && c !in l.sys.mgr.contexts
    ensures PM.Bind(l.mems[e], c, parent).Raised? <==> parent.Some? && parent.value !in l.mems[e].ctxs
    ensures PM.Bind(l.mems[e], c, parent).Ok? ==>
              && c in PM.Bind(l.mems[e], c, parent).value.ctxs
              && !Mirror(l.sys.mgr, l.mems[e := PM.Bind(l.mems[e], c, parent).value])
  {
    hide SysInv, PM.MemInv;
    var mem := l.mems[e];
    assert MirrorOne(l.sys.mgr.contexts, e, mem);
    if parent.None? || parent.value in mem.ctxs {
      PM.BindKeeps(mem, c, parent);
      assert c !in mem.ctxs;
      var mems := l.mems[e := PM.Bind(mem, c, parent).value];
      assert !MirrorOne(l.sys.mgr.contexts, e, mems[e]);
    }
  }

  /** And in every such state, on every engine, the block table of every context addresses
      every token of the context and its ancestors correctly, and the ancestors are the
      contexts the serve layer forked it from. */
  lemma EnginesAddressCorrectly(sizes: map<nat, (PM.BlockSize, nat)>, steps: seq<LinkStep>, l: Linked, e: nat, c: nat)
    requires LinkRuns(LinkInit(sizes), steps, l) && InMem(l, e, c)
    ensures PM.Tree(l.mems[e]) && Addressing.TranslatesAll(l.mems[e], c)
    ensures c in l.sys.mgr.contexts && l.sys.mgr.contexts[c] == Context(e, l.mems[e].ctxs[c].parent)
  {
    hide SysInv, Settled;
    LinkRunsKeep(sizes, steps, l);
    var mem := l.mems[e];
    assert MirrorOne(l.sys.mgr.contexts, e, mem);
    Addressing.InvStartsAligned(mem, c);
    Addressing.TranslationExact(mem, c);
  }
}
