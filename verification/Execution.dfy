/** All coroutines of the serve layer as one labelled step system
    (`parrot/serve/session/graph_executor.py`).  A coroutine can only be interrupted at
    an await, so everything between two awaits is one step: binding, looking at the next
    node, posting a primitive, receiving its response, waking up, and freeing. */
module Execution {
  import opened Wrappers
  import opened ServeContexts
  import RecyclePools

  /** Where the coroutine of a bound task is, relative to its node `next`. */
  datatype Phase =
    | AtNode      // at the top of the loop body, or past the last node
    | InFlight    // awaiting the response of the primitive posted for this node
    | Waiting     // awaiting `ready_event` of a context another task has started
    | Failed      // the primitive raised and the loop was left

  datatype Exec = Exec(next: nat, phase: Phase)

  /** `started` and `ready` are the set `start_event`s and `ready_event`s; `contents` is
      the write-once content of semantic variables; `broken` records live contexts whose
      primitive raised. */
  datatype System = System(
    mgr: Manager,
    holds: Holds,
    execs: map<nat, Exec>,
    contents: map<VarId, string>,
    started: set<nat>,
    ready: set<nat>,
    broken: set<nat>)

  datatype Step =
    | SetVar(v: VarId, text: string)
    | Bind(t: nat, engine: nat, chain: Chain)
    | Advance(t: nat)
    | Wake(t: nat)
    | Complete(t: nat, output: string)
    | Fail(t: nat, landed: bool)
    | Finish(t: nat)
    | ExpirePrefix(v: VarId)

  predicate HasPhase(s: System, t: nat, ph: Phase) {
    t in s.holds && t in s.execs && s.execs[t].phase == ph
  }

  /** When the scheduler of coroutines may take a step.  Binding needs what the
      coroutine awaited before it: every Fill variable ready.  A client may write any
      variable at any time, the output of a bound or unbound chain included. */
  predicate Enabled(s: System, st: Step) {
    match st
    case SetVar(_, _) => true
    case Bind(t, e, ch) =>
      && t !in s.holds && e in s.mgr.caches && ch.fills != []
      && (forall i :: 0 <= i < |ch.fills| ==> ch.fills[i] in s.contents)
    case Advance(t) => HasPhase(s, t, AtNode) && s.execs[t].next < |s.holds[t].held|
    case Wake(t) =>
      && HasPhase(s, t, Waiting) && s.execs[t].next < |s.holds[t].held|
      && s.holds[t].held[s.execs[t].next] in s.ready
    case Complete(t, _) => HasPhase(s, t, InFlight) && s.execs[t].next < |s.holds[t].held|
    case Fail(t, _) => HasPhase(s, t, InFlight) && s.execs[t].next < |s.holds[t].held|
    case Finish(t) =>
      (HasPhase(s, t, AtNode) && s.execs[t].next == |s.holds[t].held|) || HasPhase(s, t, Failed)
    case ExpirePrefix(_) => true
  }

  /** The engine's `bind_job_context`: an unknown parent is a `KeyError`. */
  function RemoteBind(backend: map<nat, Remote>, c: nat, ctx: Context): Result<map<nat, Remote>> {
    if c in backend then Ok(backend)
    else if ctx.parent.Some? && ctx.parent.value !in backend then Raised
    else Ok(backend[c := Remote(ctx.engine, ctx.parent, "")])
  }

  function MoveTo(s: System, t: nat, x: Exec): System {
    s.(execs := s.execs[t := x])
  }

  /** One iteration of the loop in `execute`, up to its first await. */
  function ApplyAdvance(s: System, t: nat): Result<System>
    requires Enabled(s, Advance(t))
  {
    var x := s.execs[t];
    var c := s.holds[t].held[x.next];
    if c in s.ready then Ok(MoveTo(s, t, Exec(x.next + 1, AtNode)))
    else if c in s.started then Ok(MoveTo(s, t, Exec(x.next, Waiting)))
    else if c !in s.mgr.contexts then Raised
    else
      var backend :- RemoteBind(s.mgr.backend, c, s.mgr.contexts[c]);
      Ok(MoveTo(s, t, Exec(x.next, InFlight)).(started := s.started + {c}, mgr := s.mgr.(backend := backend)))
  }

  /** The response arrived: a Fill has put its variable's text into the context, a
      Generate its output, which becomes the content of the Gen variable.  If somebody
      else has written that variable, the assertion in `set` trips inside the loop's
      `try`, and the primitive counts as failed. */
  function ApplyComplete(s: System, t: nat, output: string): Result<System>
    requires Enabled(s, Complete(t, output))
  {
    var x := s.execs[t];
    var h := s.holds[t];
    var c := h.held[x.next];
    if c !in s.mgr.backend then Raised
    else if x.next < |h.chain.fills| then
      if h.chain.fills[x.next] !in s.contents then Raised
      else Ok(Filled(s, t, c, s.contents[h.chain.fills[x.next]]))
    else
      if h.chain.gen in s.contents then Ok(Spoiled(s, t, c, output))
      else Ok(Filled(s, t, c, output).(contents := s.contents[h.chain.gen := output]))
  }

  function Filled(s: System, t: nat, c: nat, text: string): System
    requires t in s.execs && c in s.mgr.backend
  {
    MoveTo(s, t, Exec(s.execs[t].next + 1, AtNode)).(
      ready := s.ready + {c},
      mgr := s.mgr.(backend := s.mgr.backend[c := s.mgr.backend[c].(text := text)]))
  }

  function Spoiled(s: System, t: nat, c: nat, text: string): System
    requires t in s.execs && c in s.mgr.backend
  {
    MoveTo(s, t, Exec(s.execs[t].next, Failed)).(
      broken := s.broken + {c},
      mgr := s.mgr.(backend := s.mgr.backend[c := s.mgr.backend[c].(text := text)]))
  }

  /** The primitive raised, before or after the engine made the context. */
  function ApplyFail(s: System, t: nat, landed: bool): System
    requires Enabled(s, Fail(t, landed))
  {
    var x := s.execs[t];
    var c := s.holds[t].held[x.next];
    MoveTo(s, t, Exec(x.next, Failed)).(
      broken := s.broken + {c},
      mgr := if landed then s.mgr else s.mgr.(backend := s.mgr.backend - {c}))
  }

  /** The events of contexts that no longer exist are gone with them. */
  function WithManager(s: System, m: Manager): System {
    s.(mgr := m, started := s.started * m.contexts.Keys, ready := s.ready * m.contexts.Keys,
       broken := s.broken * m.contexts.Keys)
  }

  function Apply(s: System, st: Step): Result<System>
    requires Enabled(s, st)
  {
    match st
    case SetVar(v, text) => if v in s.contents then Raised else Ok(s.(contents := s.contents[v := text]))
    case Bind(t, e, ch) =>
      var b :- BindTask(s.mgr, e, ch);
      Ok(s.(mgr := b.mgr, holds := s.holds[t := Hold(e, ch, b.held)], execs := s.execs[t := Exec(0, AtNode)]))
    case Advance(t) => ApplyAdvance(s, t)
    case Wake(t) => Ok(MoveTo(s, t, Exec(s.execs[t].next + 1, AtNode)))
    case Complete(t, output) => ApplyComplete(s, t, output)
    case Fail(t, landed) => Ok(ApplyFail(s, t, landed))
    case Finish(t) =>
      var m :- FreeHeld(s.mgr, s.holds[t].held, {});
      Ok(WithManager(s, m).(holds := s.holds - {t}, execs := s.execs - {t}))
    case ExpirePrefix(v) =>
      var m :- Expire(s.mgr, v);
      Ok(WithManager(s, m))
  }

  // ---------- The invariant of the running system ----------

  ghost predicate ExecOk(s: System, t: nat)
    requires t in s.holds && t in s.execs
  {
    var h := s.holds[t];
    var x := s.execs[t];
    && |h.held| == |h.chain.fills| + 1 && x.next <= |h.held|
    && (x.phase != AtNode ==> x.next < |h.held|)
    && (forall i :: 0 <= i < x.next ==> h.held[i] in s.ready)
    && (x.phase == Waiting ==> h.held[x.next] in s.started)
    && (x.phase == InFlight ==>
         h.held[x.next] in s.started - s.ready && h.held[x.next] in s.mgr.backend && h.held[x.next] !in s.broken)
    && (x.phase == Failed ==> h.held[x.next] in s.started - s.ready && h.held[x.next] in s.broken)
  }

  ghost predicate ExecsInv(s: System) {
    && s.execs.Keys == s.holds.Keys
    && (forall t :: t in s.holds ==> ExecOk(s, t))
  }

  /** At most one primitive is in flight per context. */
  ghost predicate ExclusiveInv(s: System) {
    forall t, u :: t != u && HasPhase(s, t, InFlight) && HasPhase(s, u, InFlight)
      && s.execs[t].next < |s.holds[t].held| && s.execs[u].next < |s.holds[u].held|
      ==> s.holds[t].held[s.execs[t].next] != s.holds[u].held[s.execs[u].next]
  }

  /** A context reaches an engine only after its parent is ready there. */
  ghost predicate EventsInv(s: System) {
    && s.ready <= s.mgr.backend.Keys <= s.started <= s.mgr.contexts.Keys
    && s.broken <= s.started - s.ready
    && (forall c :: c in s.mgr.backend && s.mgr.backend[c].parent.Some? ==> s.mgr.backend[c].parent.value in s.ready)
  }

  /** A started context that is not ready and not broken has its primitive in flight. */
  ghost predicate OwnedInv(s: System) {
    forall c :: c in s.started - s.ready - s.broken ==> exists t :: Owns(s, t, c)
  }

  ghost predicate Owns(s: System, t: nat, c: nat) {
    && HasPhase(s, t, InFlight)
    && s.execs[t].next < |s.holds[t].held| && s.holds[t].held[s.execs[t].next] == c
  }

  /** A ready cached context holds the text of the last variable of its prefix. */
  ghost predicate TextInv(s: System) {
    forall e, p :: e in s.mgr.caches && p in s.mgr.caches[e].fwd && s.mgr.caches[e].fwd[p] in s.ready ==>
      TextOk(s, s.mgr.caches[e].fwd[p], p)
  }

  ghost predicate TextOk(s: System, c: nat, p: Path) {
    && p != [] && p[|p| - 1] in s.contents
    && c in s.mgr.backend && s.mgr.backend[c].text == s.contents[p[|p| - 1]]
  }

  ghost predicate SysInv(s: System) {
    && Inv(s.mgr, s.holds, s.contents.Keys)
    && ExecsInv(s) && ExclusiveInv(s) && EventsInv(s) && OwnedInv(s) && TextInv(s)
  }

  lemma InvOf(s: System)
    requires SysInv(s)
    ensures Inv(s.mgr, s.holds, s.contents.Keys)
  {}

  // ---------- Every step keeps it ----------

  lemma SetVarKeeps(s: System, v: VarId, text: string)
    requires SysInv(s) && v !in s.contents
    ensures SysInv(Apply(s, SetVar(v, text)).value)
  {
    hide Inv, TextInv;
    var n := Apply(s, SetVar(v, text)).value;
    KnownFrame(s.mgr, s.holds, s.contents.Keys, n.contents.Keys);
    forall t | t in n.holds ensures ExecOk(n, t) { assert ExecOk(s, t); }
    forall c | c in n.started - n.ready - n.broken ensures exists u :: Owns(n, u, c) {
      var u :| Owns(s, u, c);
      assert Owns(n, u, c);
    }
    TextFrame(s, n);
  }

  /** Owners survive a step that leaves the in-flight tasks other than `t` alone, if the
      contexts `t` owned are accounted for. */
  lemma OwnersFrame(s: System, n: System, t: nat)
    requires OwnedInv(s)
    requires forall u :: HasPhase(s, u, InFlight) && u != t ==>
               u in n.holds && u in n.execs && n.holds[u] == s.holds[u] && n.execs[u] == s.execs[u]
    requires forall c :: c in n.started - n.ready - n.broken ==>
               (c in s.started - s.ready - s.broken && !Owns(s, t, c)) || Owns(n, t, c)
    ensures OwnedInv(n)
  {
    forall c | c in n.started - n.ready - n.broken ensures exists u :: Owns(n, u, c) {
      if !Owns(n, t, c) {
        var u :| Owns(s, u, c);
        assert Owns(n, u, c);
      }
    }
  }

  lemma TextFrame(s: System, n: System)
    requires TextInv(s) && n.ready == s.ready
    requires n.mgr.caches == s.mgr.caches
    requires forall c :: c in s.ready && c in s.mgr.backend ==>
               c in n.mgr.backend && n.mgr.backend[c] == s.mgr.backend[c]
    requires forall v :: v in s.contents ==> v in n.contents && n.contents[v] == s.contents[v]
    ensures TextInv(n)
  {
    forall e, p | e in n.mgr.caches && p in n.mgr.caches[e].fwd && n.mgr.caches[e].fwd[p] in n.ready
      ensures TextOk(n, n.mgr.caches[e].fwd[p], p) { assert TextOk(s, s.mgr.caches[e].fwd[p], p); }
  }

  lemma ExecsFrame(s: System, n: System, t: nat)
    requires ExecsInv(s) && t in s.holds && n.holds == s.holds && t in n.execs && n.execs == s.execs[t := n.execs[t]]
    requires s.started <= n.started && s.ready <= n.ready
    requires forall u :: u in s.holds && u != t && s.execs[u].phase == InFlight
                         && s.execs[u].next < |s.holds[u].held| ==>
               var c := s.holds[u].held[s.execs[u].next];
               && (c in n.ready ==> c in s.ready) && (c in n.broken ==> c in s.broken)
               && (c in s.mgr.backend ==> c in n.mgr.backend)
    requires s.broken <= n.broken && n.broken !! n.ready
    requires ExecOk(n, t)
    ensures ExecsInv(n)
  {
    forall u | u in n.holds ensures ExecOk(n, u) { if u != t { assert ExecOk(s, u); } }
  }

  /** Only the position of one task that was not in flight changes. */
  lemma MoveKeeps(s: System, t: nat, x: Exec)
    requires SysInv(s) && t in s.holds && s.execs[t].phase != InFlight && x.phase != InFlight
    requires ExecOk(MoveTo(s, t, x), t)
    ensures SysInv(MoveTo(s, t, x))
  {
    hide Inv, TextInv, ExecOk, OwnedInv;
    var n := MoveTo(s, t, x);
    ExecsFrame(s, n, t);
    OwnersFrame(s, n, t);
    TextFrame(s, n);
  }

  lemma AdvanceContext(s: System, t: nat)
    requires SysInv(s) && t in s.holds && s.execs[t].next < |s.holds[t].held|
    ensures var i := s.execs[t].next;
            var c := s.holds[t].held[i];
            && ExecOk(s, t)
            && c in s.mgr.contexts
            && s.mgr.contexts[c] == Context(s.holds[t].engine, if i == 0 then None else Some(s.holds[t].held[i - 1]))
            && (i > 0 ==> s.holds[t].held[i - 1] in s.ready && s.holds[t].held[i - 1] in s.mgr.backend)
  {
    hide TextInv, OwnedInv, Inv;
    HeldLive(s.mgr, s.holds, s.contents.Keys, t, s.execs[t].next);
  }

  /** Posting a primitive: the context is new to its engine, the engine knows the parent,
      and the parent is ready. */
  lemma PostKeeps(s: System, t: nat)
    requires SysInv(s) && Enabled(s, Advance(t)) && s.holds[t].held[s.execs[t].next] !in s.started
    ensures Apply(s, Advance(t)).Ok? && SysInv(Apply(s, Advance(t)).value)
    ensures HasPhase(Apply(s, Advance(t)).value, t, InFlight)
  {
    hide Inv, TextInv, OwnedInv, ExecOk, ExecsInv, ExclusiveInv;
    AdvanceContext(s, t);
    var x := s.execs[t];
    var c := s.holds[t].held[x.next];
    assert c !in s.mgr.backend && c !in s.ready;
    var n := ApplyAdvance(s, t).value;
    assert n.mgr.backend == s.mgr.backend[c := Remote(s.mgr.contexts[c].engine, s.mgr.contexts[c].parent, "")];
    PostKeepsBackend(s, n, c);
    TextFrame(s, n);
    PostKeepsExec(s, n, t);
    ExecsFrame(s, n, t);
    PostKeepsExclusive(s, n, t);
    PostKeepsOwners(s, n, t);
  }

  lemma PostKeepsOwners(s: System, n: System, t: nat)
    requires OwnedInv(s) && HasPhase(s, t, AtNode) && s.execs[t].next < |s.holds[t].held|
    requires n.holds == s.holds && n.execs == s.execs[t := Exec(s.execs[t].next, InFlight)]
    requires n.started == s.started + {s.holds[t].held[s.execs[t].next]} && n.ready == s.ready && n.broken == s.broken
    ensures OwnedInv(n)
  {
    hide OwnedInv;
    OwnersFrame(s, n, t);
  }

  lemma PostKeepsBackend(s: System, n: System, c: nat)
    requires Inv(s.mgr, s.holds, s.contents.Keys) && n.holds == s.holds && n.contents == s.contents
    requires c in s.mgr.contexts
    requires n.mgr ==
             s.mgr.(backend := s.mgr.backend[c := Remote(s.mgr.contexts[c].engine, s.mgr.contexts[c].parent, "")])
    ensures Inv(n.mgr, n.holds, n.contents.Keys)
  {
    BackendFrame(s.mgr, n.mgr, s.holds, s.contents.Keys);
  }

  lemma PostKeepsExec(s: System, n: System, t: nat)
    requires t in s.holds && t in s.execs && ExecOk(s, t) && s.execs[t].next < |s.holds[t].held|
    requires s.broken <= s.started
    requires var c := s.holds[t].held[s.execs[t].next];
             && c !in s.started && c !in s.ready
             && n.holds == s.holds && n.execs == s.execs[t := Exec(s.execs[t].next, InFlight)]
             && n.started == s.started + {c} && n.ready == s.ready && n.broken == s.broken && c in n.mgr.backend
    ensures ExecOk(n, t)
  {}

  lemma PostKeepsExclusive(s: System, n: System, t: nat)
    requires ExclusiveInv(s) && ExecsInv(s) && t in s.holds && s.execs[t].next < |s.holds[t].held|
    requires s.holds[t].held[s.execs[t].next] !in s.started
    requires n.holds == s.holds && n.execs == s.execs[t := Exec(s.execs[t].next, InFlight)]
    ensures ExclusiveInv(n)
  {
    forall u | u in s.holds && u != t && s.execs[u].phase == InFlight && s.execs[u].next < |s.holds[u].held|
      ensures s.holds[u].held[s.execs[u].next] in s.started { assert ExecOk(s, u); }
  }

  lemma AdvanceKeeps(s: System, t: nat)
    requires SysInv(s) && Enabled(s, Advance(t))
    ensures Apply(s, Advance(t)).Ok? && SysInv(Apply(s, Advance(t)).value)
  {
    hide SysInv;
    AdvanceContext(s, t);
    var x := s.execs[t];
    var c := s.holds[t].held[x.next];
    if c in s.ready {
      MoveKeeps(s, t, Exec(x.next + 1, AtNode));
    } else if c in s.started {
      MoveKeeps(s, t, Exec(x.next, Waiting));
    } else {
      PostKeeps(s, t);
    }
  }

  lemma WakeKeeps(s: System, t: nat)
    requires SysInv(s) && Enabled(s, Wake(t))
    ensures SysInv(Apply(s, Wake(t)).value)
  {
    hide Inv, TextInv, OwnedInv, ExclusiveInv, EventsInv;
    AdvanceContext(s, t);
    MoveKeeps(s, t, Exec(s.execs[t].next + 1, AtNode));
  }

  /** The context of a primitive in flight breaks; whatever text it got, nobody reads it. */
  lemma BreakKeeps(s: System, n: System, t: nat, c: nat)
    requires SysInv(s) && Owns(s, t, c)
    requires n == MoveTo(s, t, Exec(s.execs[t].next, Failed)).(
                    broken := s.broken + {c}, mgr := s.mgr.(backend := n.mgr.backend))
    requires s.mgr.backend.Keys - {c} <= n.mgr.backend.Keys <= s.mgr.backend.Keys
    requires forall d :: d in n.mgr.backend ==>
               n.mgr.backend[d].engine == s.mgr.backend[d].engine && n.mgr.backend[d].parent == s.mgr.backend[d].parent
    requires forall d :: d in n.mgr.backend && d != c ==> n.mgr.backend[d] == s.mgr.backend[d]
    ensures SysInv(n)
  {
    hide Inv, TextInv, OwnedInv, ExecOk, ExecsInv, ExclusiveInv;
    AdvanceContext(s, t);
    FailFacts(s, t, c);
    ShrinkBackend(s.mgr, n.mgr, s.holds, s.contents.Keys);
    TextFrame(s, n);
    FailKeepsExec(s, n, t);
    ExecsFrame(s, n, t);
    OwnersFrame(s, n, t);
    LandKeepsExclusive(s, n, t);
  }

  lemma FailKeeps(s: System, t: nat, landed: bool)
    requires SysInv(s) && Enabled(s, Fail(t, landed))
    ensures SysInv(ApplyFail(s, t, landed))
  {
    hide SysInv;
    BreakKeeps(s, ApplyFail(s, t, landed), t, s.holds[t].held[s.execs[t].next]);
  }

  lemma LandKeepsExclusive(s: System, n: System, t: nat)
    requires ExclusiveInv(s) && t in s.execs && n.holds == s.holds && t in n.execs
             && n.execs == s.execs[t := n.execs[t]]
    requires n.execs[t].phase != InFlight
    ensures ExclusiveInv(n)
  {
    forall u | HasPhase(n, u, InFlight) ensures u != t && HasPhase(s, u, InFlight) && s.execs[u] == n.execs[u] {}
  }

  lemma FailFacts(s: System, t: nat, c: nat)
    requires ExecsInv(s) && ExclusiveInv(s) && Owns(s, t, c)
    ensures c in s.started && c !in s.ready && c in s.mgr.backend && c !in s.broken
    ensures forall u :: Owns(s, u, c) ==> u == t
    ensures forall u :: u in s.holds && u != t && s.execs[u].phase == InFlight
                        && s.execs[u].next < |s.holds[u].held| ==>
              s.holds[u].held[s.execs[u].next] != c
  {
    assert ExecOk(s, t);
  }

  lemma ShrinkBackend(m: Manager, n: Manager, hs: Holds, known: set<VarId>)
    requires Inv(m, hs, known) && n == m.(backend := n.backend) && n.backend.Keys <= m.backend.Keys
    requires forall c :: c in n.backend ==>
               n.backend[c].engine == m.backend[c].engine && n.backend[c].parent == m.backend[c].parent
    ensures Inv(n, hs, known)
  {
    BackendFrame(m, n, hs, known);
  }

  lemma FailKeepsExec(s: System, n: System, t: nat)
    requires t in s.holds && t in s.execs && ExecOk(s, t) && s.execs[t].phase == InFlight
    requires n.holds == s.holds && n.execs == s.execs[t := Exec(s.execs[t].next, Failed)]
    requires n.started == s.started && n.ready == s.ready && s.holds[t].held[s.execs[t].next] in n.broken
    ensures ExecOk(n, t)
  {}

  /** Everything that `Filled` keeps whatever the text is. */
  lemma FilledKeeps(s: System, t: nat, text: string)
    requires SysInv(s) && HasPhase(s, t, InFlight) && s.execs[t].next < |s.holds[t].held|
    requires s.holds[t].held[s.execs[t].next] in s.mgr.backend
    ensures var n := Filled(s, t, s.holds[t].held[s.execs[t].next], text);
            && Inv(n.mgr, n.holds, n.contents.Keys)
            && ExecsInv(n) && ExclusiveInv(n) && EventsInv(n) && OwnedInv(n)
  {
    hide Inv, TextInv, OwnedInv, ExecOk, ExecsInv, ExclusiveInv;
    AdvanceContext(s, t);
    var c := s.holds[t].held[s.execs[t].next];
    var n := Filled(s, t, c, text);
    FailFacts(s, t, c);
    ShrinkBackend(s.mgr, n.mgr, s.holds, s.contents.Keys);
    FilledKeepsExec(s, n, t);
    ExecsFrame(s, n, t);
    OwnersFrame(s, n, t);
    LandKeepsExclusive(s, n, t);
  }

  lemma FilledKeepsExec(s: System, n: System, t: nat)
    requires t in s.holds && t in s.execs && ExecOk(s, t) && s.execs[t].phase == InFlight
    requires n.holds == s.holds && n.execs == s.execs[t := Exec(s.execs[t].next + 1, AtNode)]
    requires n.started == s.started && n.ready == s.ready + {s.holds[t].held[s.execs[t].next]}
    ensures ExecOk(n, t)
  {}

  lemma FillText(s: System, t: nat)
    requires SysInv(s) && HasPhase(s, t, InFlight) && s.execs[t].next < |s.holds[t].chain.fills|
    ensures var i := s.execs[t].next;
            var h := s.holds[t];
            && i < |h.held| && h.held[i] in s.mgr.backend && h.chain.fills[i] in s.contents
            && forall e, p :: e in s.mgr.caches && p in s.mgr.caches[e].fwd && s.mgr.caches[e].fwd[p] == h.held[i] ==>
                 p == h.chain.fills[..i + 1]
  {
    hide TextInv, OwnedInv, EventsInv, ExclusiveInv;
    assert ExecOk(s, t);
    var i := s.execs[t].next;
    var h := s.holds[t];
    HeldLive(s.mgr, s.holds, s.contents.Keys, t, i);
    CachedPathUnique(s.mgr, s.holds, s.contents.Keys, h.engine, h.chain.fills[..i + 1]);
    assert h.chain.fills[..i + 1][i] == h.chain.fills[i];
  }

  /** A cached context has one path only, on one engine. */
  lemma CachedPathUnique(m: Manager, hs: Holds, known: set<VarId>, e: nat, p: Path)
    requires Inv(m, hs, known) && e in m.caches && p in m.caches[e].fwd
    ensures p != [] && forall i :: 0 <= i < |p| ==> p[i] in known
    ensures forall f, q :: f in m.caches && q in m.caches[f].fwd && m.caches[f].fwd[q] == m.caches[e].fwd[p] ==> q == p
  {
    hide HoldInv, PinInv, PoolInv, RefInv, BackendInv;
    assert EntryOk(m, e, known, p);
    forall f, q | f in m.caches && q in m.caches[f].fwd && m.caches[f].fwd[q] == m.caches[e].fwd[p] ensures q == p {
      assert EntryOk(m, f, known, q);
    }
  }

  lemma CompleteFillKeeps(s: System, t: nat, output: string)
    requires SysInv(s) && Enabled(s, Complete(t, output)) && s.execs[t].next < |s.holds[t].chain.fills|
    ensures Apply(s, Complete(t, output)).Ok? && SysInv(Apply(s, Complete(t, output)).value)
  {
    hide Inv, OwnedInv, ExecOk, ExecsInv, ExclusiveInv, EventsInv;
    FillText(s, t);
    var h := s.holds[t];
    var i := s.execs[t].next;
    var n := ApplyComplete(s, t, output).value;
    FilledKeeps(s, t, s.contents[h.chain.fills[i]]);
    forall e, p | e in n.mgr.caches && p in n.mgr.caches[e].fwd && n.mgr.caches[e].fwd[p] in n.ready
      ensures TextOk(n, n.mgr.caches[e].fwd[p], p)
    {
      if n.mgr.caches[e].fwd[p] == h.held[i] {
        assert p == h.chain.fills[..i + 1];
      } else {
        assert TextOk(s, s.mgr.caches[e].fwd[p], p);
      }
    }
  }

  lemma InFlightNotReady(s: System, t: nat)
    requires SysInv(s) && HasPhase(s, t, InFlight)
    ensures s.execs[t].next < |s.holds[t].held| && s.holds[t].held[s.execs[t].next] !in s.ready
  {
    hide Inv, TextInv, OwnedInv, ExclusiveInv;
    assert ExecOk(s, t);
  }

  lemma GenFacts(s: System, t: nat)
    requires SysInv(s) && HasPhase(s, t, InFlight) && s.execs[t].next >= |s.holds[t].chain.fills|
    ensures var h := s.holds[t];
            && s.execs[t].next == |h.chain.fills| && |h.held| == |h.chain.fills| + 1
            && h.held[|h.chain.fills|] in s.mgr.backend
            && (h.chain.gen !in s.contents ==>
                  forall e, p :: e in s.mgr.caches && p in s.mgr.caches[e].fwd ==>
                      s.mgr.caches[e].fwd[p] != h.held[|h.chain.fills|])
  {
    hide TextInv, OwnedInv, EventsInv, ExclusiveInv;
    assert ExecOk(s, t);
    var h := s.holds[t];
    HeldLive(s.mgr, s.holds, s.contents.Keys, t, |h.chain.fills|);
    if h.chain.gen !in s.contents { GenNotInCaches(s.mgr, s.holds, s.contents.Keys, t); }
  }

  /** The context of a Gen node whose variable is unset is in no prefix cache. */
  lemma GenNotInCaches(m: Manager, hs: Holds, known: set<VarId>, t: nat)
    requires Inv(m, hs, known) && t in hs && |hs[t].held| == |hs[t].chain.fills| + 1 && hs[t].chain.gen !in known
    ensures forall e, p :: e in m.caches && p in m.caches[e].fwd ==>
              m.caches[e].fwd[p] != hs[t].held[|hs[t].chain.fills|]
  {
    hide PinInv, PoolInv, RefInv, BackendInv;
    var g := |hs[t].chain.fills|;
    HoldOkOf(m, hs, t);
    HeldOkOf(m, hs[t], g);
    GenNotCached(m, known, hs[t].engine, hs[t].chain);
    forall e, p | e in m.caches && p in m.caches[e].fwd ensures m.caches[e].fwd[p] != hs[t].held[g] {
      EntryOkOf(m, known, e, p);
    }
  }

  lemma CompleteGenKeeps(s: System, t: nat, output: string)
    requires SysInv(s) && Enabled(s, Complete(t, output)) && s.execs[t].next >= |s.holds[t].chain.fills|
    ensures Apply(s, Complete(t, output)).Ok? && SysInv(Apply(s, Complete(t, output)).value)
    ensures var n := Apply(s, Complete(t, output)).value;
            var c := s.holds[t].held[s.execs[t].next];
            var gen := s.holds[t].chain.gen;
            && (gen in s.contents ==> c in n.broken && c !in n.ready && n.contents == s.contents)
            && (gen !in s.contents ==> c in n.ready && n.contents == s.contents[gen := output])
  {
    hide Inv, OwnedInv, ExecOk, ExecsInv, ExclusiveInv, EventsInv;
    InFlightNotReady(s, t);
    GenFacts(s, t);
    var h := s.holds[t];
    var c := h.held[|h.chain.fills|];
    var n := ApplyComplete(s, t, output).value;
    if h.chain.gen in s.contents {
      BreakKeeps(s, n, t, c);
    } else {
      var f := Filled(s, t, c, output);
      FilledKeeps(s, t, output);
      OutputFrame(f, n, t, output);
      forall e, p | e in n.mgr.caches && p in n.mgr.caches[e].fwd && n.mgr.caches[e].fwd[p] in n.ready
        ensures TextOk(n, n.mgr.caches[e].fwd[p], p)
      {
        assert TextOk(s, s.mgr.caches[e].fwd[p], p);
      }
    }
  }

  lemma OutputFrame(f: System, n: System, t: nat, text: string)
    requires Inv(f.mgr, f.holds, f.contents.Keys) && ExecsInv(f) && ExclusiveInv(f) && EventsInv(f) && OwnedInv(f)
    requires t in f.holds && |f.holds[t].held| == |f.holds[t].chain.fills| + 1
             && f.holds[t].held[|f.holds[t].chain.fills|] in f.ready
    requires f.holds[t].chain.gen !in f.contents && n == f.(contents := f.contents[f.holds[t].chain.gen := text])
    ensures Inv(n.mgr, n.holds, n.contents.Keys) && ExecsInv(n) && ExclusiveInv(n) && EventsInv(n) && OwnedInv(n)
  {
    hide Inv;
    KnownFrame(f.mgr, f.holds, f.contents.Keys, n.contents.Keys);
    forall u | u in n.holds ensures ExecOk(n, u) { assert ExecOk(f, u); }
    forall c | c in n.started - n.ready - n.broken ensures exists u :: Owns(n, u, c) {
      var u :| Owns(f, u, c);
      assert Owns(n, u, c);
    }
  }

  lemma BindKeeps(s: System, t: nat, e: nat, ch: Chain)
    requires SysInv(s) && Enabled(s, Bind(t, e, ch))
    ensures Apply(s, Bind(t, e, ch)).Ok? && SysInv(Apply(s, Bind(t, e, ch)).value)
    ensures Apply(s, Bind(t, e, ch)).value.mgr.pins.Keys <= s.mgr.pins.Keys + {ch.fills[0]}
  {
    hide Inv, OwnedInv, TextInv, ExecOk, ExclusiveInv, BindTask;
    BindTaskKeeps(s.mgr, s.holds, s.contents.Keys, t, e, ch);
    var n := Apply(s, Bind(t, e, ch)).value;
    ExtendedExecs(s, n, t);
    ExtendedText(s, n, ch.fills[0]);
    ExtendedOwners(s, n, t);
  }

  lemma ExtendedExecs(s: System, n: System, t: nat)
    requires ExecsInv(s) && ExclusiveInv(s) && t !in s.holds && t in n.holds
    requires n.holds == s.holds[t := n.holds[t]] && n.execs == s.execs[t := Exec(0, AtNode)]
    requires |n.holds[t].held| == |n.holds[t].chain.fills| + 1
    requires n.started == s.started && n.ready == s.ready && n.broken == s.broken && n.mgr.backend == s.mgr.backend
    ensures ExecsInv(n) && ExclusiveInv(n)
  {
    forall u | u in n.holds ensures ExecOk(n, u) { if u != t { assert ExecOk(s, u); } }
    forall u | HasPhase(n, u, InFlight) ensures u != t && HasPhase(s, u, InFlight) {}
  }

  lemma ExtendedText(s: System, n: System, v: VarId)
    requires TextInv(s) && EventsInv(s) && Extended(s.mgr, n.mgr, v) && n.ready == s.ready && n.contents == s.contents
    ensures TextInv(n)
  {
    forall e, p | e in n.mgr.caches && p in n.mgr.caches[e].fwd && n.mgr.caches[e].fwd[p] in n.ready
      ensures TextOk(n, n.mgr.caches[e].fwd[p], p) { assert TextOk(s, s.mgr.caches[e].fwd[p], p); }
  }

  lemma ExtendedOwners(s: System, n: System, t: nat)
    requires OwnedInv(s) && t !in s.holds && t in n.holds && n.holds == s.holds[t := n.holds[t]]
             && n.execs == s.execs[t := Exec(0, AtNode)]
    requires n.started == s.started && n.ready == s.ready && n.broken == s.broken
    ensures OwnedInv(n)
  {
    hide OwnedInv;
    OwnersFrame(s, n, t);
  }

  // ---------- Steps that free contexts ----------

  /** The system after `m` replaced the manager and the tasks outside `keep` left. */
  function Kept(s: System, m: Manager, gone: set<nat>): System {
    WithManager(s, m).(holds := s.holds - gone, execs := s.execs - gone)
  }

  lemma PrunedEvents(s: System, n: System)
    requires EventsInv(s) && Pruned(s.mgr, n.mgr) && Inv(n.mgr, n.holds, n.contents.Keys)
    requires n.started == s.started * n.mgr.contexts.Keys && n.ready == s.ready * n.mgr.contexts.Keys
    requires n.broken == s.broken * n.mgr.contexts.Keys
    ensures EventsInv(n)
  {
    hide Inv;
    forall c | c in n.mgr.backend && n.mgr.backend[c].parent.Some? ensures n.mgr.backend[c].parent.value in n.ready {
      BackendParent(n.mgr, n.holds, n.contents.Keys, c);
    }
  }

  lemma BackendParent(m: Manager, hs: Holds, known: set<VarId>, c: nat)
    requires Inv(m, hs, known) && c in m.backend
    ensures c in m.contexts && m.contexts[c].parent == m.backend[c].parent
    ensures m.backend[c].parent.Some? ==> m.backend[c].parent.value in m.contexts
  {
    hide HoldInv, PinInv, PoolInv, RefInv, CacheInv;
    if m.backend[c].parent.Some? { ParentLive(m, hs, known, c); }
  }

  lemma PrunedExecs(s: System, m: Manager, gone: set<nat>)
    requires ExecsInv(s) && ExclusiveInv(s) && Pruned(s.mgr, m) && Inv(m, s.holds - gone, s.contents.Keys)
    ensures ExecsInv(Kept(s, m, gone)) && ExclusiveInv(Kept(s, m, gone))
  {
    hide Inv;
    var n := Kept(s, m, gone);
    forall u | u in n.holds ensures ExecOk(n, u) {
      assert ExecOk(s, u);
      forall i | 0 <= i < |n.holds[u].held| ensures n.holds[u].held[i] in m.contexts {
        HeldLive(m, n.holds, s.contents.Keys, u, i);
      }
    }
    forall u | HasPhase(n, u, InFlight) ensures HasPhase(s, u, InFlight) {}
  }

  lemma PrunedText(s: System, m: Manager, gone: set<nat>)
    requires TextInv(s) && Pruned(s.mgr, m) && Inv(m, s.holds - gone, s.contents.Keys)
    ensures TextInv(Kept(s, m, gone))
  {
    hide Inv;
    var n := Kept(s, m, gone);
    forall e, p | e in n.mgr.caches && p in n.mgr.caches[e].fwd && n.mgr.caches[e].fwd[p] in n.ready
      ensures TextOk(n, n.mgr.caches[e].fwd[p], p) { assert TextOk(s, s.mgr.caches[e].fwd[p], p); }
  }

  lemma PrunedOwners(s: System, m: Manager, gone: set<nat>)
    requires OwnedInv(s) && Pruned(s.mgr, m)
    requires forall t :: t in gone ==> !HasPhase(s, t, InFlight)
    ensures OwnedInv(Kept(s, m, gone))
  {
    var n := Kept(s, m, gone);
    forall c | c in n.started - n.ready - n.broken ensures exists u :: Owns(n, u, c) {
      assert c in s.started - s.ready - s.broken;
      var u :| Owns(s, u, c);
      assert Owns(n, u, c);
    }
  }

  lemma PrunedKeeps(s: System, m: Manager, gone: set<nat>)
    requires SysInv(s) && Pruned(s.mgr, m) && Inv(m, s.holds - gone, s.contents.Keys)
    requires forall t :: t in gone ==> !HasPhase(s, t, InFlight)
    ensures SysInv(Kept(s, m, gone))
  {
    hide Inv, OwnedInv, TextInv, ExclusiveInv, ExecsInv, EventsInv;
    PrunedEvents(s, Kept(s, m, gone));
    PrunedExecs(s, m, gone);
    PrunedText(s, m, gone);
    PrunedOwners(s, m, gone);
  }

  lemma FinishKeeps(s: System, t: nat)
    requires SysInv(s) && Enabled(s, Finish(t))
    ensures Apply(s, Finish(t)).Ok? && SysInv(Apply(s, Finish(t)).value)
    ensures Apply(s, Finish(t)).value.mgr.pins == s.mgr.pins
  {
    hide Inv, OwnedInv, TextInv, ExclusiveInv, EventsInv;
    FreeHeldKeeps(s.mgr, s.holds, s.contents.Keys, t, {});
    var m := FreeHeld(s.mgr, s.holds[t].held, {}).value;
    PrunedKeeps(s, m, {t});
    assert Apply(s, Finish(t)).value == Kept(s, m, {t});
  }

  /** Expiry raises exactly when the variable has never pinned a context since it last
      expired. */
  lemma ExpireStepKeeps(s: System, v: VarId)
    requires SysInv(s)
    ensures Apply(s, ExpirePrefix(v)).Ok? <==> v in s.mgr.pins
    ensures v in s.mgr.pins ==> SysInv(Apply(s, ExpirePrefix(v)).value)
    ensures v in s.mgr.pins ==> Apply(s, ExpirePrefix(v)).value.mgr.pins == s.mgr.pins - {v}
  {
    hide Inv, OwnedInv, TextInv, ExclusiveInv, EventsInv;
    ExpireKeeps(s.mgr, s.holds, s.contents.Keys, v);
    if v in s.mgr.pins {
      var m := Expire(s.mgr, v).value;
      assert s.holds - {} == s.holds && s.execs - {} == s.execs;
      PrunedKeeps(s, m, {});
      assert Apply(s, ExpirePrefix(v)).value == Kept(s, m, {});
    }
  }

  /** Every enabled step of every coroutine and client keeps the invariant.  Two kinds of
      steps raise, and change nothing: writing a variable twice, and the expiry of a
      constant prefix that pins nothing, which trips the assertion in
      `free_constant_prefix_contexts`. */
  lemma StepSafe(s: System, st: Step)
    requires SysInv(s) && Enabled(s, st)
    ensures Apply(s, st).Raised? <==>
              (st.ExpirePrefix? && st.v !in s.mgr.pins) || (st.SetVar? && st.v in s.contents)
    ensures Apply(s, st).Ok? ==> SysInv(Apply(s, st).value)
  {
    hide SysInv, BindTask, FreeHeld, Expire, ApplyAdvance, ApplyComplete;
    match st
    case SetVar(v, text) => if v !in s.contents { SetVarKeeps(s, v, text); }
    case Bind(t, e, ch) => BindKeeps(s, t, e, ch);
    case Advance(t) => AdvanceKeeps(s, t);
    case Wake(t) => WakeKeeps(s, t);
    case Complete(t, output) =>
      if s.execs[t].next < |s.holds[t].chain.fills| {
        CompleteFillKeeps(s, t, output);
      } else {
        CompleteGenKeeps(s, t, output);
      }
    case Fail(t, landed) => FailKeeps(s, t, landed);
    case Finish(t) => FinishKeeps(s, t);
    case ExpirePrefix(v) => ExpireStepKeeps(s, v);
  }

  // ---------- Whole runs ----------

  function Init(engines: set<nat>): System {
    System(
      Manager(map[], map[], map[], RecyclePools.New(None, false),
              map e | e in engines :: PrefixCache(map[], map[]), map[]),
      map[], map[], map[], {}, {}, {})
  }

  /** `s` is reached from `s0` by taking the steps one after the other, each enabled and
      successful. */
  ghost predicate Runs(s0: System, steps: seq<Step>, s: System)
    decreases |steps|
  {
    if steps == [] then s == s0
    else
      var last := steps[|steps| - 1];
      exists r :: Runs(s0, steps[..|steps| - 1], r) && Enabled(r, last) && Apply(r, last) == Ok(s)
  }

  lemma InitInv(engines: set<nat>)
    ensures SysInv(Init(engines))
  {
    var s := Init(engines);
    assert RecyclePools.Live(s.mgr.pool) == {};
    assert forall c :: Holders(s.holds, c) == {};
  }

  lemma {:induction false} RunsKeep(engines: set<nat>, steps: seq<Step>, s: System)
    requires Runs(Init(engines), steps, s)
    ensures SysInv(s)
    decreases |steps|
  {
    hide SysInv;
    if steps == [] {
      InitInv(engines);
    } else {
      var n := |steps| - 1;
      var r :| Runs(Init(engines), steps[..n], r) && Enabled(r, steps[n]) && Apply(r, steps[n]) == Ok(s);
      RunsKeep(engines, steps[..n], r);
      StepSafe(r, steps[n]);
    }
  }
}
