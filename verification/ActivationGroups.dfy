/** Which chains a traversal puts into which group (`parrot/serve/graph/graph_traverse.py`),
    against a reference order of the depth-first search: every chain that it activates, with
    the chain whose Fill reached it first. */
module ActivationGroups {
  import opened Wrappers
  import opened RequestGraph

  /** A chain that is activated, and the chain that reached it first (none for the root). */
  datatype Visit = Visit(chain: nat, consumer: Option<nat>)

  ghost function Gens(g: Graph, o: seq<Visit>): set<VarId> {
    set i | 0 <= i < |o| && o[i].chain < |g.chains| :: g.chains[o[i].chain].gen
  }

  /** The depth-first order from v, where the variables in `seen` are activated already. */
  ghost function Order(g: Graph, seen: set<VarId>, v: VarId, consumer: Option<nat>): seq<Visit>
    requires GraphInv(g)
    decreases if v in g.producer then g.producer[v] + 1 else 0, 1, 0
  {
    if v !in g.producer || v in seen then []
    else
      var k := g.producer[v];
      [Visit(k, consumer)] + OrderFills(g, seen, k, |g.chains[k].fills|)
  }

  /** The same from the first n Fill nodes of chain k. */
  ghost function OrderFills(g: Graph, seen: set<VarId>, k: nat, n: nat): seq<Visit>
    requires GraphInv(g) && k < |g.chains| && n <= |g.chains[k].fills|
    decreases k + 1, 0, n
  {
    if n == 0 then []
    else
      var before := OrderFills(g, seen, k, n - 1);
      before + Order(g, seen + Gens(g, before), g.chains[k].fills[n - 1], Some(k))
  }

  // ---------- What the order is ----------

  /** Visit p is the chain that reached visit i first. */
  ghost predicate Reaches(o: seq<Visit>, p: nat, i: nat) {
    p < i < |o| && o[i].consumer == Some(o[p].chain)
  }

  /** The chains are different, come before chain `bound`, and were not activated. */
  ghost predicate NewChains(g: Graph, seen: set<VarId>, o: seq<Visit>, bound: nat) {
    && (forall i :: 0 <= i < |o| ==> o[i].chain < bound && o[i].chain < |g.chains| && g.chains[o[i].chain].gen !in seen)
    && (forall i, j :: 0 <= i < j < |o| ==> o[i].chain != o[j].chain)
  }

  ghost predicate Reads(g: Graph, c: nat, k: nat) {
    c < |g.chains| && k < |g.chains| && g.chains[k].gen in g.chains[c].fills
  }

  /** Every visit was reached by an earlier one, or by `own`, through a Fill that reads it. */
  ghost predicate Reached(g: Graph, o: seq<Visit>, own: Option<nat>, from: nat) {
    forall i: nat :: from <= i < |o| ==>
      && o[i].consumer.Some? && Reads(g, o[i].consumer.value, o[i].chain)
      && (o[i].consumer == own || exists p: nat :: Reaches(o, p, i))
  }

  lemma GensOfConcat(g: Graph, a: seq<Visit>, b: seq<Visit>)
    ensures Gens(g, a + b) == Gens(g, a) + Gens(g, b)
  {
    forall x ensures x in Gens(g, a + b) <==> x in Gens(g, a) + Gens(g, b) {
      if x in Gens(g, a) {
        var i :| 0 <= i < |a| && a[i].chain < |g.chains| && x == g.chains[a[i].chain].gen;
        assert (a + b)[i] == a[i];
      }
      if x in Gens(g, b) {
        var i :| 0 <= i < |b| && b[i].chain < |g.chains| && x == g.chains[b[i].chain].gen;
        assert (a + b)[|a| + i] == b[i];
      }
    }
  }

  lemma NewChainsConcat(g: Graph, seen: set<VarId>, a: seq<Visit>, b: seq<Visit>, bound: nat)
    requires NewChains(g, seen, a, bound) && NewChains(g, seen + Gens(g, a), b, bound)
    ensures NewChains(g, seen, a + b, bound)
  {
    forall i, j | 0 <= i < |a| && 0 <= j < |b| ensures a[i].chain != b[j].chain {
      assert g.chains[a[i].chain].gen in Gens(g, a);
    }
  }

  lemma ReachedConcat(g: Graph, a: seq<Visit>, b: seq<Visit>, k: nat)
    requires Reached(g, a, Some(k), 0) && Reached(g, b, Some(k), 0)
    ensures Reached(g, a + b, Some(k), 0)
  {
    var o := a + b;
    forall i | 0 <= i < |o|
      ensures o[i].consumer.Some? && Reads(g, o[i].consumer.value, o[i].chain)
      ensures o[i].consumer == Some(k) || exists p: nat :: Reaches(o, p, i)
    {
      if i < |a| {
        if a[i].consumer != Some(k) {
          var p: nat :| Reaches(a, p, i);
          assert Reaches(o, p, i);
        }
      } else if b[i - |a|].consumer != Some(k) {
        var p: nat :| Reaches(b, p, i - |a|);
        assert Reaches(o, |a| + p, i);
      }
    }
  }

  /** The order from v starts with the chain that produces v, unless v is unproduced or
      activated; every later chain is new and was reached through a Fill of an earlier one. */
  lemma {:induction false} OrderSpec(g: Graph, seen: set<VarId>, v: VarId, consumer: Option<nat>)
    requires GraphInv(g)
    ensures var o := Order(g, seen, v, consumer);
            && (o == [] <==> v !in g.producer || v in seen)
            && (o != [] ==> o[0] == Visit(g.producer[v], consumer))
            && NewChains(g, seen, o, Bound(g, v)) && Reached(g, o, None, 1)
    decreases if v in g.producer then g.producer[v] + 1 else 0, 1, 0
  {
    hide GraphInv;
    OrderStep(g, seen, v, consumer);
    if v in g.producer && v !in seen {
      GraphFacts(g, v);
      var k := g.producer[v];
      var rest := OrderFills(g, seen, k, |g.chains[k].fills|);
      OrderFillsSpec(g, seen, k, |g.chains[k].fills|);
      RootNew(g, seen, v, consumer, rest);
      ReachedFromRoot(g, Visit(k, consumer), rest);
    }
  }

  lemma RootNew(g: Graph, seen: set<VarId>, v: VarId, consumer: Option<nat>, rest: seq<Visit>)
    requires v in g.producer && g.producer[v] < |g.chains| && g.chains[g.producer[v]].gen == v && v !in seen
    requires NewChains(g, seen, rest, g.producer[v])
    ensures NewChains(g, seen, [Visit(g.producer[v], consumer)] + rest, Bound(g, v))
  {}

  lemma ReachedFromRoot(g: Graph, root: Visit, rest: seq<Visit>)
    requires Reached(g, rest, Some(root.chain), 0)
    ensures Reached(g, [root] + rest, None, 1)
  {
    var o := [root] + rest;
    forall i: nat | 1 <= i < |o|
      ensures o[i].consumer.Some? && Reads(g, o[i].consumer.value, o[i].chain)
      ensures exists p: nat :: Reaches(o, p, i)
    {
      assert o[i] == rest[i - 1];
      if rest[i - 1].consumer == Some(root.chain) {
        assert Reaches(o, 0, i);
      } else {
        var p: nat :| Reaches(rest, p, i - 1);
        assert Reaches(o, p + 1, i);
      }
    }
  }

  lemma OrderStep(g: Graph, seen: set<VarId>, v: VarId, consumer: Option<nat>)
    requires GraphInv(g)
    ensures v !in g.producer || v in seen ==> Order(g, seen, v, consumer) == []
    ensures v in g.producer && v !in seen ==>
              var k := g.producer[v];
              && k < |g.chains|
              && Order(g, seen, v, consumer) == [Visit(k, consumer)] + OrderFills(g, seen, k, |g.chains[k].fills|)
  {}

  lemma {:induction false} OrderFillsSpec(g: Graph, seen: set<VarId>, k: nat, n: nat)
    requires GraphInv(g) && k < |g.chains| && n <= |g.chains[k].fills|
    ensures var o := OrderFills(g, seen, k, n);
            NewChains(g, seen, o, k) && Reached(g, o, Some(k), 0)
    decreases k + 1, 0, n
  {
    hide GraphInv, NewChains, Reached;
    OrderFillsStep(g, seen, k, n);
    if n == 0 {
      NothingNew(g, seen, k);
    } else {
      var before := OrderFills(g, seen, k, n - 1);
      var f := g.chains[k].fills[n - 1];
      OrderFillsSpec(g, seen, k, n - 1);
      InputsEarlier(g, k, n - 1);
      OrderSpec(g, seen + Gens(g, before), f, Some(k));
      var more := Order(g, seen + Gens(g, before), f, Some(k));
      Below(g, seen + Gens(g, before), more, Bound(g, f), k);
      NewChainsConcat(g, seen, before, more, k);
      FromFill(g, seen + Gens(g, before), k, n - 1);
      ReachedConcat(g, before, more, k);
    }
  }

  lemma OrderFillsStep(g: Graph, seen: set<VarId>, k: nat, n: nat)
    requires GraphInv(g) && k < |g.chains| && n <= |g.chains[k].fills|
    ensures n == 0 ==> OrderFills(g, seen, k, n) == []
    ensures n > 0 ==>
              var before := OrderFills(g, seen, k, n - 1);
              OrderFills(g, seen, k, n) ==
              before + Order(g, seen + Gens(g, before), g.chains[k].fills[n - 1], Some(k))
  {}

  lemma NothingNew(g: Graph, seen: set<VarId>, k: nat)
    ensures NewChains(g, seen, [], k) && Reached(g, [], Some(k), 0)
  {}

  lemma Below(g: Graph, seen: set<VarId>, o: seq<Visit>, bound: nat, k: nat)
    requires NewChains(g, seen, o, bound) && bound <= k
    ensures NewChains(g, seen, o, k)
  {}

  lemma FromFill(g: Graph, seen: set<VarId>, k: nat, i: nat)
    requires GraphInv(g) && k < |g.chains| && i < |g.chains[k].fills|
    requires var o := Order(g, seen, g.chains[k].fills[i], Some(k));
             && (o != [] ==> o[0] == Visit(g.producer[g.chains[k].fills[i]], Some(k))) && Reached(g, o, None, 1)
             && (o == [] <==> g.chains[k].fills[i] !in g.producer || g.chains[k].fills[i] in seen)
    ensures Reached(g, Order(g, seen, g.chains[k].fills[i], Some(k)), Some(k), 0)
  {
    hide GraphInv;
    var o := Order(g, seen, g.chains[k].fills[i], Some(k));
    if o != [] { GraphFacts(g, g.chains[k].fills[i]); }
  }

  // ---------- What the traversal does ----------

  /** From a to b, visit i of the order joined exactly one more group: the one made for the
      chain that reached it first.  Visit p makes group `a.nextGroup + p`. */
  ghost predicate JoinedInOrder(g: Graph, a: Activation, b: Activation, o: seq<Visit>) {
    && b.nextGroup == a.nextGroup + |o|
    && b.marks.Keys == a.marks.Keys + Gens(g, o)
    && (forall j :: (forall i :: 0 <= i < |o| ==> o[i].chain != j) ==> GroupsOf(b, j) == GroupsOf(a, j))
    && (forall p: nat, i: nat :: Reaches(o, p, i) ==>
         GroupsOf(b, o[i].chain) == GroupsOf(a, o[i].chain) + [a.nextGroup + p])
  }

  /** The visits that the chain `own` reached itself joined its group. */
  ghost predicate JoinedOwn(a: Activation, b: Activation, o: seq<Visit>, own: nat, group: nat) {
    forall i :: 0 <= i < |o| && o[i].consumer == Some(own) ==>
      GroupsOf(b, o[i].chain) == GroupsOf(a, o[i].chain) + [group]
  }

  /** Two parts of the order, one after the other. */
  lemma JoinedConcat(g: Graph, a: Activation, b: Activation, c: Activation, x: seq<Visit>, y: seq<Visit>, k: nat)
    requires NewChains(g, a.marks.Keys, x, k) && NewChains(g, a.marks.Keys + Gens(g, x), y, k)
    requires Reached(g, y, Some(k), 0)
    requires JoinedInOrder(g, a, b, x) && JoinedInOrder(g, b, c, y)
    ensures JoinedInOrder(g, a, c, x + y)
  {
    hide Reached, NewChains, JoinedInOrder, Gens;
    var o := x + y;
    GensOfConcat(g, x, y);
    Totals(g, a, b, x);
    Totals(g, b, c, y);
    Untouched(g, a, b, x);
    Untouched(g, b, c, y);
    UntouchedByBoth(g, a, b, c, x, y);
    forall p: nat, i: nat | Reaches(o, p, i)
      ensures GroupsOf(c, o[i].chain) == GroupsOf(a, o[i].chain) + [a.nextGroup + p]
    {
      ReachesIn(o, p, i);
      AllDifferent(g, a.marks.Keys, x, y, k);
      if i < |x| {
        JoinedFirst(g, a, b, c, x, y, p, i);
      } else {
        if p < |x| { NotAcross(g, x, y, k, p, i - |x|); }
        JoinedSecond(g, a, b, c, x, y, p - |x|, i - |x|);
      }
    }
    AssembleJoined(g, a, c, o);
  }

  lemma ReachesIn(o: seq<Visit>, p: nat, i: nat)
    requires Reaches(o, p, i)
    ensures p < i < |o| && o[i].consumer == Some(o[p].chain)
  {}

  lemma AssembleJoined(g: Graph, a: Activation, b: Activation, o: seq<Visit>)
    requires b.nextGroup == a.nextGroup + |o| && b.marks.Keys == a.marks.Keys + Gens(g, o)
    requires forall j :: (forall i :: 0 <= i < |o| ==> o[i].chain != j) ==> GroupsOf(b, j) == GroupsOf(a, j)
    requires forall p: nat, i: nat :: Reaches(o, p, i) ==>
               GroupsOf(b, o[i].chain) == GroupsOf(a, o[i].chain) + [a.nextGroup + p]
    ensures JoinedInOrder(g, a, b, o)
  {}

  lemma Totals(g: Graph, a: Activation, b: Activation, o: seq<Visit>)
    requires JoinedInOrder(g, a, b, o)
    ensures b.nextGroup == a.nextGroup + |o| && b.marks.Keys == a.marks.Keys + Gens(g, o)
  {}

  lemma Untouched(g: Graph, a: Activation, b: Activation, o: seq<Visit>)
    requires JoinedInOrder(g, a, b, o)
    ensures forall j :: (forall i :: 0 <= i < |o| ==> o[i].chain != j) ==> GroupsOf(b, j) == GroupsOf(a, j)
  {}

  lemma AllDifferent(g: Graph, seen: set<VarId>, x: seq<Visit>, y: seq<Visit>, k: nat)
    requires NewChains(g, seen, x, k) && NewChains(g, seen + Gens(g, x), y, k)
    ensures forall i :: 0 <= i < |x| ==> x[i].chain < k
    ensures forall i, j :: 0 <= i < |x| && 0 <= j < |y| ==> x[i].chain != y[j].chain
  {
    forall i, j | 0 <= i < |x| && 0 <= j < |y| ensures x[i].chain != y[j].chain {
      assert g.chains[x[i].chain].gen in Gens(g, x);
    }
  }

  lemma JoinedFirst(g: Graph, a: Activation, b: Activation, c: Activation, x: seq<Visit>, y: seq<Visit>, p: nat, i: nat)
    requires Reaches(x + y, p, i) && i < |x| && JoinedInOrder(g, a, b, x) && JoinedInOrder(g, b, c, y)
    requires forall i, j :: 0 <= i < |x| && 0 <= j < |y| ==> x[i].chain != y[j].chain
    ensures GroupsOf(c, x[i].chain) == GroupsOf(a, x[i].chain) + [a.nextGroup + p]
  {
    assert Reaches(x, p, i);
    OnlyIn(g, b, c, x, y, i);
  }

  lemma JoinedSecond(g: Graph, a: Activation, b: Activation, c: Activation, x: seq<Visit>, y: seq<Visit>, p: nat,
                     i: nat)
    requires Reaches(x + y, |x| + p, |x| + i) && JoinedInOrder(g, a, b, x) && JoinedInOrder(g, b, c, y)
    requires forall i, j :: 0 <= i < |x| && 0 <= j < |y| ==> x[i].chain != y[j].chain
    ensures i < |y| && GroupsOf(c, y[i].chain) == GroupsOf(a, y[i].chain) + [a.nextGroup + |x| + p]
  {
    assert Reaches(y, p, i);
    OnlyIn(g, a, b, y, x, i);
  }

  lemma UntouchedByBoth(g: Graph, a: Activation, b: Activation, c: Activation, x: seq<Visit>, y: seq<Visit>)
    requires forall j :: (forall i :: 0 <= i < |x| ==> x[i].chain != j) ==> GroupsOf(b, j) == GroupsOf(a, j)
    requires forall j :: (forall i :: 0 <= i < |y| ==> y[i].chain != j) ==> GroupsOf(c, j) == GroupsOf(b, j)
    ensures forall j :: (forall i :: 0 <= i < |x + y| ==> (x + y)[i].chain != j) ==> GroupsOf(c, j) == GroupsOf(a, j)
  {
    var o := x + y;
    forall j: nat | forall i :: 0 <= i < |o| ==> o[i].chain != j ensures GroupsOf(c, j) == GroupsOf(a, j) {
      forall i | 0 <= i < |x| ensures x[i].chain != j { assert o[i] == x[i]; }
      forall i | 0 <= i < |y| ensures y[i].chain != j { assert o[|x| + i] == y[i]; }
    }
  }

  /** A chain of the one part is not touched by the other. */
  lemma OnlyIn(g: Graph, a: Activation, b: Activation, x: seq<Visit>, y: seq<Visit>, i: nat)
    requires i < |x| && JoinedInOrder(g, a, b, y) && forall j :: 0 <= j < |y| ==> x[i].chain != y[j].chain
    ensures GroupsOf(b, x[i].chain) == GroupsOf(a, x[i].chain)
  {}

  lemma NotAcross(g: Graph, x: seq<Visit>, y: seq<Visit>, k: nat, p: nat, i: nat)
    requires Reached(g, y, Some(k), 0) && p < |x| && i < |y|
    requires x[p].chain < k && forall j :: 0 <= j < |y| ==> x[p].chain != y[j].chain
    ensures y[i].consumer != Some(x[p].chain)
  {
    if y[i].consumer != Some(k) {
      var q: nat :| Reaches(y, q, i);
    }
  }

  lemma OwnConcat(g: Graph, a: Activation, b: Activation, c: Activation, x: seq<Visit>, y: seq<Visit>, k: nat,
                  group: nat)
    requires NewChains(g, a.marks.Keys, x + y, k)
    requires JoinedInOrder(g, a, b, x) && JoinedInOrder(g, b, c, y)
    requires JoinedOwn(a, b, x, k, group) && JoinedOwn(b, c, y, k, group)
    ensures JoinedOwn(a, c, x + y, k, group)
  {
    var o := x + y;
    forall i, j | 0 <= i < |x| && 0 <= j < |y| ensures x[i].chain != y[j].chain {
      assert o[i] == x[i] && o[|x| + j] == y[j];
    }
    forall i: nat | i < |o| && o[i].consumer == Some(k)
      ensures GroupsOf(c, o[i].chain) == GroupsOf(a, o[i].chain) + [group]
    {
      if i < |x| { OnlyIn(g, b, c, x, y, i); } else { OnlyIn(g, a, b, y, x, i - |x|); }
    }
  }

  /** Every chain that the traversal from v activates below the root joins exactly the group
      of the chain that reached it first; the root joins exactly the group passed in. */
  lemma {:induction false} TraverseGroups(
      g: Graph, a: Activation, v: VarId, crit: Criteria, group: Option<nat>, consumer: Option<nat>)
    requires GraphInv(g)
    ensures var o := Order(g, a.marks.Keys, v, consumer);
            var b := Traverse(g, a, v, crit, group).0;
            && JoinedInOrder(g, a, b, o)
            && (o != [] ==> GroupsOf(b, o[0].chain) ==
                            GroupsOf(a, o[0].chain) + if group.Some? then [group.value] else [])
    decreases if v in g.producer then g.producer[v] + 1 else 0, 1, 0
  {
    hide GraphInv, JoinedInOrder, NewChains, Reached, JoinedOwn, Traverse, TraverseFills, Order, OrderFills;
    var seen := a.marks.Keys;
    OrderStep(g, seen, v, consumer);
    if v !in g.producer || v in seen {
      TraverseDone(g, a, v, crit, group);
      NothingJoined(g, a, 0, 0);
    } else {
      GraphFacts(g, v);
      TraverseProduced(g, a, v, crit, group);
      var k := g.producer[v];
      var n := |g.chains[k].fills|;
      var a1 := Join(a, k, group);
      var a2 := a1.(nextGroup := a1.nextGroup + 1);
      var rest := OrderFills(g, seen, k, n);
      TraverseFillsGroups(g, a2, k, n, crit, a1.nextGroup);
      var d := TraverseFills(g, a2, k, n, crit, a1.nextGroup);
      OrderFillsSpec(g, seen, k, n);
      JoinOnly(a, k, group);
      GroupsOfFrame(a1, a2);
      RootJoined(g, a, a2, d.0, d.0.(marks := d.0.marks[v := Mark(crit, d.1)]), Visit(k, consumer), rest);
    }
  }

  lemma NothingJoined(g: Graph, a: Activation, k: nat, group: nat)
    ensures JoinedInOrder(g, a, a, []) && JoinedOwn(a, a, [], k, group)
  {}

  lemma JoinOnly(a: Activation, k: nat, group: Option<nat>)
    ensures var b := Join(a, k, group);
            && (forall j :: j != k ==> GroupsOf(b, j) == GroupsOf(a, j))
            && GroupsOf(b, k) == GroupsOf(a, k) + if group.Some? then [group.value] else []
  {}

  lemma RestBelow(g: Graph, seen: set<VarId>, o: seq<Visit>, k: nat)
    requires NewChains(g, seen, o, k)
    ensures forall i :: 0 <= i < |o| ==> o[i].chain != k
  {}

  lemma JoinedRest(g: Graph, a: Activation, b: Activation, o: seq<Visit>, p: nat, i: nat)
    requires JoinedInOrder(g, a, b, o) && p < i < |o| && o[i].consumer == Some(o[p].chain)
    ensures GroupsOf(b, o[i].chain) == GroupsOf(a, o[i].chain) + [a.nextGroup + p]
  {
    assert Reaches(o, p, i);
  }

  lemma RootJoined(g: Graph, a: Activation, a2: Activation, d: Activation, e: Activation, root: Visit, rest: seq<Visit>)
    requires root.chain < |g.chains| && NewChains(g, a.marks.Keys, rest, root.chain)
    requires a2.nextGroup == a.nextGroup + 1 && a2.marks == a.marks
    requires forall j :: j != root.chain ==> GroupsOf(a2, j) == GroupsOf(a, j)
    requires JoinedInOrder(g, a2, d, rest) && JoinedOwn(a2, d, rest, root.chain, a.nextGroup)
    requires e.groups == d.groups && e.nextGroup == d.nextGroup
    requires e.marks.Keys == d.marks.Keys + {g.chains[root.chain].gen}
    ensures JoinedInOrder(g, a, e, [root] + rest) && GroupsOf(e, root.chain) == GroupsOf(a2, root.chain)
  {
    hide NewChains, JoinedInOrder, Gens, GroupsOf, JoinedOwn;
    GroupsOfFrame(d, e);
    Untouched(g, a2, d, rest);
    RestBelow(g, a.marks.Keys, rest, root.chain);
    forall j: nat | forall i :: 0 <= i < |[root]| ==> [root][i].chain != j ensures GroupsOf(a2, j) == GroupsOf(a, j) {
      assert [root][0].chain != j;
    }
    UntouchedByBoth(g, a, a2, e, [root], rest);
    Totals(g, a2, d, rest);
    GensOfConcat(g, [root], rest);
    GensOfOne(g, root);
    var o := [root] + rest;
    forall p: nat, i: nat | Reaches(o, p, i)
      ensures GroupsOf(e, o[i].chain) == GroupsOf(a, o[i].chain) + [a.nextGroup + p]
    {
      assert o[i] == rest[i - 1];
      if p == 0 {
        JoinedFirstFill(a2, d, rest, root.chain, a.nextGroup, i - 1);
      } else {
        JoinedRest(g, a2, d, rest, p - 1, i - 1);
      }
    }
    AssembleJoined(g, a, e, o);
  }

  lemma GensOfOne(g: Graph, root: Visit)
    requires root.chain < |g.chains|
    ensures Gens(g, [root]) == {g.chains[root.chain].gen}
  {
    assert [root][0].chain == root.chain;
  }

  lemma JoinedFirstFill(a: Activation, b: Activation, o: seq<Visit>, own: nat, group: nat, i: nat)
    requires JoinedOwn(a, b, o, own, group) && i < |o| && o[i].consumer == Some(own)
    ensures GroupsOf(b, o[i].chain) == GroupsOf(a, o[i].chain) + [group]
  {}

  lemma {:induction false} TraverseFillsGroups(g: Graph, a: Activation, k: nat, n: nat, crit: Criteria, group: nat)
    requires GraphInv(g) && k < |g.chains| && n <= |g.chains[k].fills|
    ensures var o := OrderFills(g, a.marks.Keys, k, n);
            var b := TraverseFills(g, a, k, n, crit, group).0;
            JoinedInOrder(g, a, b, o) && JoinedOwn(a, b, o, k, group)
    decreases k + 1, 0, n
  {
    hide GraphInv, JoinedInOrder, NewChains, Reached, JoinedOwn, Traverse, TraverseFills, Order, OrderFills;
    var seen := a.marks.Keys;
    OrderFillsStep(g, seen, k, n);
    if n == 0 {
      TraverseNoFills(g, a, k, crit, group);
      NothingJoined(g, a, k, group);
    } else {
      TraverseOneMore(g, a, k, n - 1, crit, group);
      TraverseFillsGroups(g, a, k, n - 1, crit, group);
      var before := OrderFills(g, seen, k, n - 1);
      var b := TraverseFills(g, a, k, n - 1, crit, group).0;
      MarksAfter(g, a, b, before);
      var f := g.chains[k].fills[n - 1];
      InputsEarlier(g, k, n - 1);
      var more := Order(g, seen + Gens(g, before), f, Some(k));
      TraverseGroups(g, b, f, crit, Some(group), Some(k));
      var c := Traverse(g, b, f, crit, Some(group)).0;
      OrderFillsSpec(g, seen, k, n - 1);
      OrderSpec(g, seen + Gens(g, before), f, Some(k));
      Below(g, seen + Gens(g, before), more, Bound(g, f), k);
      FromFill(g, seen + Gens(g, before), k, n - 1);
      JoinedConcat(g, a, b, c, before, more, k);
      NewChainsConcat(g, seen, before, more, k);
      OwnMore(g, seen + Gens(g, before), b, c, more, k, group);
      OwnConcat(g, a, b, c, before, more, k, group);
    }
  }

  lemma MarksAfter(g: Graph, a: Activation, b: Activation, o: seq<Visit>)
    requires JoinedInOrder(g, a, b, o)
    ensures b.marks.Keys == a.marks.Keys + Gens(g, o)
  {}

  /** Of the visits from one Fill of chain k, only the first was reached by k itself. */
  lemma OwnMore(g: Graph, seen: set<VarId>, b: Activation, c: Activation, o: seq<Visit>, k: nat, group: nat)
    requires NewChains(g, seen, o, k) && Reached(g, o, None, 1)
    requires o != [] ==> GroupsOf(c, o[0].chain) == GroupsOf(b, o[0].chain) + [group]
    ensures JoinedOwn(b, c, o, k, group)
  {
    forall i: nat | 1 <= i < |o| ensures o[i].consumer != Some(k) {
      var p: nat :| Reaches(o, p, i);
    }
  }

  // ---------- Whole sessions ----------

  /** Every group in use was handed out. */
  ghost predicate GroupsBelow(a: Activation) {
    forall k, x :: x in GroupsOf(a, k) ==> x < a.nextGroup
  }

  /** The effect of one `get` on the groups: every chain it activates below the root is in
      exactly one group, a new one, which it shares with exactly those activated chains that
      the same chain reached first; the root and all other chains stay as they were. */
  ghost predicate Grouped(g: Graph, a: Activation, b: Activation, o: seq<Visit>) {
    && (forall i: nat :: 1 <= i < |o| ==>
         |GroupsOf(b, o[i].chain)| == 1 && a.nextGroup <= GroupsOf(b, o[i].chain)[0] < b.nextGroup)
    && (forall i: nat, j: nat :: 1 <= i < |o| && 1 <= j < |o| ==>
         (GroupsOf(b, o[i].chain) == GroupsOf(b, o[j].chain) <==> o[i].consumer == o[j].consumer))
    && (o != [] ==> GroupsOf(b, o[0].chain) == [])
    && (forall k :: (forall i :: 0 <= i < |o| ==> o[i].chain != k) ==> GroupsOf(b, k) == GroupsOf(a, k))
  }

  lemma GetGroups(s: Session, v: VarId, crit: Criteria)
    requires SessionInv(s) && GroupsBelow(s.act)
    ensures var o := Order(s.graph, s.act.marks.Keys, v, None);
            var b := Traverse(s.graph, s.act, v, crit, None).0;
            && NewChains(s.graph, s.act.marks.Keys, o, |s.graph.chains|) && Reached(s.graph, o, None, 1)
            && b.marks.Keys == s.act.marks.Keys + Gens(s.graph, o)
            && Grouped(s.graph, s.act, b, o) && GroupsBelow(b)
  {
    hide GraphInv, MarksOk, Grouped, Reached, NewChains, JoinedInOrder, GroupsBelow, Traverse, Order;
    var o := Order(s.graph, s.act.marks.Keys, v, None);
    var b := Traverse(s.graph, s.act, v, crit, None).0;
    OrderSpec(s.graph, s.act.marks.Keys, v, None);
    BoundFits(s.graph, v);
    Below(s.graph, s.act.marks.Keys, o, Bound(s.graph, v), |s.graph.chains|);
    TraverseGroups(s.graph, s.act, v, crit, None, None);
    MarksAfter(s.graph, s.act, b, o);
    NoGroupsYet(s, o);
    JoinedGrouped(s.graph, s.act, b, o);
  }

  lemma NoGroupsYet(s: Session, o: seq<Visit>)
    requires SessionInv(s) && NewChains(s.graph, s.act.marks.Keys, o, |s.graph.chains|)
    ensures forall i :: 0 <= i < |o| ==> GroupsOf(s.act, o[i].chain) == []
  {
    hide GraphInv, MarksOk;
  }

  /** Visit i is in exactly the group made for visit p, which reached it first. */
  ghost predicate InGroupOf(a: Activation, b: Activation, o: seq<Visit>, p: nat, i: nat) {
    Reaches(o, p, i) && GroupsOf(b, o[i].chain) == [a.nextGroup + p]
  }

  ghost predicate Placed(a: Activation, b: Activation, o: seq<Visit>, i: nat) {
    exists p: nat :: InGroupOf(a, b, o, p, i)
  }

  lemma PlacedMeans(a: Activation, b: Activation, o: seq<Visit>, i: nat)
    requires Placed(a, b, o, i) && b.nextGroup == a.nextGroup + |o|
    ensures i < |o| && |GroupsOf(b, o[i].chain)| == 1 && a.nextGroup <= GroupsOf(b, o[i].chain)[0] < b.nextGroup
  {}

  lemma JoinedGrouped(g: Graph, a: Activation, b: Activation, o: seq<Visit>)
    requires NewChains(g, a.marks.Keys, o, |g.chains|) && Reached(g, o, None, 1) && JoinedInOrder(g, a, b, o)
    requires GroupsBelow(a) && forall i :: 0 <= i < |o| ==> GroupsOf(a, o[i].chain) == []
    requires o != [] ==> GroupsOf(b, o[0].chain) == []
    ensures Grouped(g, a, b, o) && GroupsBelow(b)
  {
    hide NewChains, JoinedInOrder, GroupsBelow, Reached, Placed, GroupsOf;
    Totals(g, a, b, o);
    Untouched(g, a, b, o);
    forall i: nat | 1 <= i < |o| ensures Placed(a, b, o, i) { PlaceOne(g, a, b, o, i); }
    forall i: nat, j: nat | 1 <= i < |o| && 1 <= j < |o|
      ensures GroupsOf(b, o[i].chain) == GroupsOf(b, o[j].chain) <==> o[i].consumer == o[j].consumer
    {
      assert Placed(a, b, o, i) && Placed(a, b, o, j);
      SharedIff(g, a, b, o, i, j);
    }
    forall i: nat | 1 <= i < |o|
      ensures |GroupsOf(b, o[i].chain)| == 1 && a.nextGroup <= GroupsOf(b, o[i].chain)[0] < b.nextGroup
    {
      PlacedMeans(a, b, o, i);
    }
    StillBelow(a, b, o);
  }

  lemma PlaceOne(g: Graph, a: Activation, b: Activation, o: seq<Visit>, i: nat)
    requires Reached(g, o, None, 1) && JoinedInOrder(g, a, b, o) && 1 <= i < |o| && GroupsOf(a, o[i].chain) == []
    ensures Placed(a, b, o, i)
  {
    hide JoinedInOrder, GroupsOf;
    var p: nat :| Reaches(o, p, i);
    JoinedRest(g, a, b, o, p, i);
    assert InGroupOf(a, b, o, p, i);
  }

  lemma SharedIff(g: Graph, a: Activation, b: Activation, o: seq<Visit>, i: nat, j: nat)
    requires NewChains(g, a.marks.Keys, o, |g.chains|) && i < |o| && j < |o|
    requires Placed(a, b, o, i) && Placed(a, b, o, j)
    ensures GroupsOf(b, o[i].chain) == GroupsOf(b, o[j].chain) <==> o[i].consumer == o[j].consumer
  {
    hide NewChains, GroupsOf;
    var p: nat :| InGroupOf(a, b, o, p, i);
    var q: nat :| InGroupOf(a, b, o, q, j);
    SameConsumer(g, a.marks.Keys, o, |g.chains|, p, q);
    assert [a.nextGroup + p][0] == a.nextGroup + p && [a.nextGroup + q][0] == a.nextGroup + q;
  }

  lemma StillBelow(a: Activation, b: Activation, o: seq<Visit>)
    requires GroupsBelow(a) && b.nextGroup == a.nextGroup + |o|
    requires forall i: nat :: 1 <= i < |o| ==> Placed(a, b, o, i)
    requires o != [] ==> GroupsOf(b, o[0].chain) == []
    requires forall k :: (forall i :: 0 <= i < |o| ==> o[i].chain != k) ==> GroupsOf(b, k) == GroupsOf(a, k)
    ensures GroupsBelow(b)
  {
    hide Placed;
    forall k, x | x in GroupsOf(b, k) ensures x < b.nextGroup {
      if i: nat :| i < |o| && o[i].chain == k {
        assert i > 0;
        PlacedMeans(a, b, o, i);
      }
    }
  }

  lemma SameConsumer(g: Graph, seen: set<VarId>, o: seq<Visit>, bound: nat, p: nat, q: nat)
    requires NewChains(g, seen, o, bound) && p < |o| && q < |o|
    ensures o[p].chain == o[q].chain <==> p == q
  {}

  lemma {:induction false} GroupsBelowAlways(events: seq<Event>, s: Session)
    requires SessionRuns(events, s)
    ensures GroupsBelow(s.act)
    decreases |events|
  {
    hide GraphInv, Grouped, GroupsBelow, Traverse, SessionInv;
    if events == [] {
      NoGroups(s);
    } else {
      var k := |events| - 1;
      var r :| SessionRuns(events[..k], r) && GraphInv(r.graph) && s == Handle(r, events[k]);
      GroupsBelowAlways(events[..k], r);
      OneGroupPerChain(events[..k], r);
      match events[k]
      case Get(v, crit) => GetGroups(r, v, crit);
      case _ =>
    }
  }

  lemma NoGroups(s: Session)
    requires s.act == Activation(map[], map[], 0)
    ensures GroupsBelow(s.act)
  {}

  /** In every session that a run of requests and gets can reach. */
  lemma GetGroupsAlways(events: seq<Event>, s: Session, v: VarId, crit: Criteria)
    requires SessionRuns(events, s) && v in s.graph.producer && v !in s.act.marks
    ensures GraphInv(s.graph)
    ensures var o := Order(s.graph, s.act.marks.Keys, v, None);
            var b := Handle(s, Get(v, crit)).act;
            && o != [] && o[0].chain == s.graph.producer[v]
            && NewChains(s.graph, s.act.marks.Keys, o, |s.graph.chains|) && Reached(s.graph, o, None, 1)
            && b.marks.Keys == s.act.marks.Keys + Gens(s.graph, o) && Grouped(s.graph, s.act, b, o)
            && forall k, x :: x in GroupsOf(s.act, k) ==> x < s.act.nextGroup
  {
    hide GraphInv, Grouped, Reached, NewChains, Traverse, Order, MarksOk, GroupsOk;
    OneGroupPerChain(events, s);
    GroupsBelowAlways(events, s);
    GetGroups(s, v, crit);
    OrderSpec(s.graph, s.act.marks.Keys, v, None);
  }
}
