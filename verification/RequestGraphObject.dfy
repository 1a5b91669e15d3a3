/** The session's variables, graph and activation as the objects they are: dictionaries
    updated in place while the loops run.  Proved against `RequestGraph`. */
module RequestGraphObject {
  import opened Wrappers
  import opened RequestGraph
  import opened ActivationGroups

  class SessionGraph {
    var vars: map<VarId, Var>
    var nextSeed: nat
    var chains: seq<Chain>
    var producer: map<VarId, nat>
    var marks: map<VarId, Mark>
    var groups: map<nat, seq<nat>>
    var nextGroup: nat

    function GraphView(): Graph reads this { Graph(Space(vars, nextSeed), chains, producer) }

    function ActView(): Activation reads this { Activation(marks, groups, nextGroup) }

    constructor ()
      ensures SessionInv(Session(GraphView(), ActView()))
    {
      vars, nextSeed, chains, producer := map[], 0, [], map[];
      marks, groups, nextGroup := map[], map[], 0;
    }

    method NewVarByName(content: Option<string>) returns (r: Option<VarId>)
      modifies this`vars, this`nextSeed
      ensures match ByName(old(Space(vars, nextSeed)), content)
              case Ok((s, id)) => r == Some(id) && Space(vars, nextSeed) == s
              case Raised => r == None && vars == old(vars) && nextSeed == old(nextSeed) + 1
    {
      var id := Local(Str(nextSeed));
      nextSeed := nextSeed + 1;
      if id in vars { return None; }
      vars := vars[id := Var(true, content)];
      return Some(id);
    }

    /** `create_vars_for_semantic_request_chain`: on success every node reads the variable it
        should and the output is new. */
    method CreateVarsOf(r: Request) returns (c: Option<Chain>)
      requires SpaceInv(Space(vars, nextSeed))
      modifies this`vars, this`nextSeed
      ensures c.Some? ==> ReadsAsWritten(old(Space(vars, nextSeed)), r, Space(vars, nextSeed), c.value)
      ensures match CreateVars(old(Space(vars, nextSeed)), r)
              case Ok((s, ch)) => c == Some(ch) && Space(vars, nextSeed) == s
              case Raised => c == None && Space(vars, nextSeed) == LeftBehind(old(Space(vars, nextSeed)), r)
    {
      hide SpaceInv, ReadsAsWritten;
      if CreateVars(Space(vars, nextSeed), r).Ok? { RequestReads(Space(vars, nextSeed), r); }
      var flag := r.cachePrefix;
      var fills: seq<VarId> := [];
      var i := 0;
      assert r.nodes[0..] == r.nodes;
      while i < |r.nodes|
        invariant 0 <= i <= |r.nodes|
        invariant ResolveFills(Space(vars, nextSeed), flag, r.nodes[i..], fills) ==
                  ResolveFills(old(Space(vars, nextSeed)), r.cachePrefix, r.nodes, [])
        invariant LeftByFills(Space(vars, nextSeed), flag, r.nodes[i..]) ==
                  LeftByFills(old(Space(vars, nextSeed)), r.cachePrefix, r.nodes)
      {
        var node := r.nodes[i];
        assert r.nodes[i..][1..] == r.nodes[i + 1..];
        if !node.Const? { flag := false; }
        match node {
          case Const(text) =>
            var id := if flag then Global(text) else Local(text);
            if id !in vars { vars := vars[id := Var(false, Some(id.name))]; }
            fills := fills + [id];
          case Value(value) =>
            var id := NewVarByName(Some(value));
            if id.None? { return None; }
            fills := fills + [id.value];
          case Ref(id) =>
            if !(id.Local? && id in vars) { return None; }
            fills := fills + [id];
        }
        i := i + 1;
      }
      var gen := NewVarByName(None);
      if gen.None? { return None; }
      return Some(Chain(fills, gen.value));
    }

    /** `insert_and_update_request_chain` for a chain whose variables exist. */
    method Insert(c: Chain) returns (ok: bool)
      modifies this`chains, this`producer
      ensures ok == (c.gen !in old(producer))
      ensures ok ==> chains == old(chains) + [c] && producer == old(producer)[c.gen := |old(chains)|]
      ensures !ok ==> chains == old(chains) && producer == old(producer)
    {
      if c.gen in producer { return false; }
      producer := producer[c.gen := |chains|];
      chains := chains + [c];
      return true;
    }

    /** A request as a session takes it: its variables, then its chain.  It is turned away
        exactly when one of its nodes has a fault or the seed for its output is taken, and
        the graph stays acyclic with one producer per variable either way. */
    method AddRequest(r: Request) returns (ok: bool)
      requires GraphInv(GraphView())
      modifies this`vars, this`nextSeed, this`chains, this`producer
      ensures GraphInv(GraphView())
      ensures !ok <==>
                (exists i :: 0 <= i < |r.nodes| && NodeFault(old(Space(vars, nextSeed)), r.cachePrefix, r.nodes, i))
                || SeedTaken(old(Space(vars, nextSeed)), r.cachePrefix, r.nodes, |r.nodes|)
      ensures ok ==> |chains| == |old(chains)| + 1 && old(chains) <= chains
      ensures GraphView() == Handle(Session(old(GraphView()), old(ActView())), Add(r)).graph
    {
      hide GraphInv, NodeFault, SeedTaken, ReadsAsWritten;
      ghost var g := GraphView();
      SpaceOf(g);
      AddRequestKeeps(g, r);
      RejectedIff(g.space, r);
      RejectKeeps(g, r);
      var c := CreateVarsOf(r);
      if c.None? { return false; }
      ok := Insert(c.value);
    }

    /** `_traverse`: recursion over producers, a loop over the Fill nodes.  Every chain that it
        activates below the root joins the group of the chain that reached it first. */
    method TraverseVar(v: VarId, crit: Criteria, group: Option<nat>) returns (depth: nat)
      requires GraphInv(GraphView())
      modifies this`marks, this`groups, this`nextGroup
      ensures (ActView(), depth) == Traverse(GraphView(), old(ActView()), v, crit, group)
      ensures JoinedInOrder(GraphView(), old(ActView()), ActView(), Order(GraphView(), old(marks.Keys), v, None))
      decreases if v in producer then producer[v] + 1 else 0
    {
      hide GraphInv, Traverse, TraverseFills, Order, JoinedInOrder;
      ghost var g := GraphView();
      TraverseGroups(g, ActView(), v, crit, group, None);
      if v !in producer || v in marks { TraverseDone(g, ActView(), v, crit, group); }
      if v !in producer { return 0; }
      GraphFacts(g, v);
      if v in marks { return marks[v].depth; }
      TraverseProduced(g, ActView(), v, crit, group);
      var k := producer[v];
      if group.Some? {
        var before := if k in groups then groups[k] else [];
        groups := groups[k := before + [group.value]];
      }
      var mine := nextGroup;
      nextGroup := nextGroup + 1;
      ghost var a := ActView();
      TraverseNoFills(g, a, k, crit, mine);
      depth := 0;
      var i := 0;
      while i < |chains[k].fills|
        invariant 0 <= i <= |chains[k].fills| && GraphView() == g && k < |chains| && producer[v] == k
        invariant (ActView(), depth) == TraverseFills(g, a, k, i, crit, mine)
      {
        InputsEarlier(g, k, i);
        TraverseOneMore(g, a, k, i, crit, mine);
        var prev := TraverseVar(chains[k].fills[i], crit, Some(mine));
        depth := Max(depth, prev + 1);
        i := i + 1;
      }
      marks := marks[v := Mark(crit, depth)];
    }
  }
}
