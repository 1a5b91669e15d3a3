/** Requests linked by semantic variables: how variables get their ids
    (`parrot/serve/variable_manager.py`), the graph the requests build
    (`parrot/serve/graph/graph.py`), and backward activation
    (`parrot/serve/graph/graph_traverse.py`).  One session; requests with one output. */
module RequestGraph {
  import opened Wrappers

  // ---------- Variable ids ----------

  /** An id is the UUID of a name in a namespace; the hash is taken to be injective, so
      the id is the pair.  Constant prefixes live in the global namespace. */
  datatype VarId = Global(name: string) | Local(name: string)

  /** `byName` variables were made for a placeholder (their name is a seed), the others
      for a constant text (their name is the text). */
  datatype Var = Var(byName: bool, content: Option<string>)

  datatype Space = Space(vars: map<VarId, Var>, nextSeed: nat)

  function Digit(d: nat): char
    requires d < 10
  {
    ['0', '1', '2', '3', '4', '5', '6', '7', '8', '9'][d]
  }

  /** `str(seed)`. */
  function Str(n: nat): string {
    if n < 10 then [Digit(n)] else Str(n / 10) + [Digit(n % 10)]
  }

  predicate IsDigit(c: char) { '0' <= c <= '9' }

  function Val(s: string): nat
    requires forall i :: 0 <= i < |s| ==> IsDigit(s[i])
  {
    if s == [] then 0
    else
      assert IsDigit(s[|s| - 1]);
      10 * Val(s[..|s| - 1]) + (s[|s| - 1] as int - '0' as int)
  }

  lemma {:induction false} ValStr(n: nat)
    ensures Str(n) != [] && (forall i :: 0 <= i < |Str(n)| ==> IsDigit(Str(n)[i])) && Val(Str(n)) == n
  {
    if n >= 10 {
      ValStr(n / 10);
      assert Str(n)[..|Str(n)| - 1] == Str(n / 10);
    } else {
      assert Str(n)[..0] == [];
    }
  }

  lemma StrInjective(m: nat, n: nat)
    requires Str(m) == Str(n)
    ensures m == n
  {
    ValStr(m);
    ValStr(n);
  }

  // ---------- Creating the variables of a request ----------

  /** The Fill nodes of a parsed request: a constant text, a placeholder with an initial
      value, or a placeholder that names an existing variable. */
  datatype FillNode = Const(text: string) | Value(value: string) | Ref(id: VarId)

  datatype Request = Request(cachePrefix: bool, nodes: seq<FillNode>)

  datatype Chain = Chain(fills: seq<VarId>, gen: VarId)

  /** `new_var_by_content`. */
  function ByContent(s: Space, id: VarId): Space {
    if id in s.vars then s else s.(vars := s.vars[id := Var(false, Some(id.name))])
  }

  /** `new_var_by_name`: takes the next seed, and raises if the id exists. */
  function ByName(s: Space, content: Option<string>): Result<(Space, VarId)> {
    var id := Local(Str(s.nextSeed));
    if id in s.vars then Raised
    else Ok((Space(s.vars[id := Var(true, content)], s.nextSeed + 1), id))
  }

  /** One iteration of `create_vars_for_semantic_request_chain` for a Fill node. */
  function Resolve(s: Space, flag: bool, node: FillNode): Result<(Space, VarId)> {
    match node
    case Const(text) =>
      var id := if flag then Global(text) else Local(text);
      Ok((ByContent(s, id), id))
    case Value(value) => ByName(s, Some(value))
    case Ref(id) => if id.Local? && id in s.vars then Ok((s, id)) else Raised
  }

  function ResolveFills(s: Space, flag: bool, nodes: seq<FillNode>, done: seq<VarId>): Result<(Space, seq<VarId>)>
    decreases |nodes|
  {
    if nodes == [] then Ok((s, done))
    else
      var flag' := flag && nodes[0].Const?;
      var r :- Resolve(s, flag', nodes[0]);
      ResolveFills(r.0, flag', nodes[1..], done + [r.1])
  }

  function CreateVars(s: Space, r: Request): Result<(Space, Chain)> {
    var f :- ResolveFills(s, r.cachePrefix, r.nodes, []);
    var g :- ByName(f.0, None);
    Ok((g.0, Chain(f.1, g.1)))
  }

  /** The namespace that a failing request leaves behind: what it made before the failure
      stays, and a seed that turned out to be taken is spent. */
  function LeftByFills(s: Space, flag: bool, nodes: seq<FillNode>): Space
    decreases |nodes|
  {
    if nodes == [] then s
    else
      var flag' := flag && nodes[0].Const?;
      match Resolve(s, flag', nodes[0])
      case Ok(r) => LeftByFills(r.0, flag', nodes[1..])
      case Raised => if nodes[0].Value? then s.(nextSeed := s.nextSeed + 1) else s
  }

  function LeftBehind(s: Space, r: Request): Space {
    match ResolveFills(s, r.cachePrefix, r.nodes, [])
    case Ok(f) => f.0.(nextSeed := f.0.nextSeed + 1)
    case Raised => LeftByFills(s, r.cachePrefix, r.nodes)
  }

  ghost predicate SpaceInv(s: Space) {
    forall id :: id in s.vars ==>
      && (s.vars[id].byName ==> id.Local? && IsSeed(s, id.name))
      && (!s.vars[id].byName ==> s.vars[id].content == Some(id.name))
  }

  /** The text is the numeral of a seed that was handed out. */
  ghost predicate IsSeed(s: Space, text: string) {
    exists k: nat :: k < s.nextSeed && text == Str(k)
  }

  lemma ResolveKeeps(s: Space, flag: bool, node: FillNode)
    requires SpaceInv(s) && Resolve(s, flag, node).Ok?
    ensures var (n, id) := Resolve(s, flag, node).value;
            && SpaceInv(n) && id in n.vars && s.nextSeed <= n.nextSeed
            && (forall v :: v in s.vars ==> v in n.vars && n.vars[v] == s.vars[v])
  {
    var (n, id) := Resolve(s, flag, node).value;
    forall v | v in n.vars && n.vars[v].byName ensures IsSeed(n, v.name) {
      if v in s.vars {
        var k: nat :| k < s.nextSeed && v.name == Str(k);
        assert k < n.nextSeed;
      } else {
        assert v.name == Str(s.nextSeed);
      }
    }
  }

  lemma SpendSeedKeeps(s: Space)
    requires SpaceInv(s)
    ensures SpaceInv(s.(nextSeed := s.nextSeed + 1))
  {
    var n := s.(nextSeed := s.nextSeed + 1);
    forall v | v in n.vars && n.vars[v].byName ensures IsSeed(n, v.name) {
      var k: nat :| k < s.nextSeed && v.name == Str(k);
      assert k < n.nextSeed;
    }
  }

  lemma {:induction false} LeftByFillsKeeps(s: Space, flag: bool, nodes: seq<FillNode>)
    requires SpaceInv(s)
    ensures SpaceInv(LeftByFills(s, flag, nodes)) && s.vars.Keys <= LeftByFills(s, flag, nodes).vars.Keys
    decreases |nodes|
  {
    if nodes != [] {
      var flag' := flag && nodes[0].Const?;
      match Resolve(s, flag', nodes[0])
      case Ok(r) =>
        ResolveKeeps(s, flag', nodes[0]);
        LeftByFillsKeeps(r.0, flag', nodes[1..]);
      case Raised => SpendSeedKeeps(s);
    }
  }

  lemma LeftBehindKeeps(s: Space, r: Request)
    requires SpaceInv(s)
    ensures SpaceInv(LeftBehind(s, r)) && s.vars.Keys <= LeftBehind(s, r).vars.Keys
  {
    if ResolveFills(s, r.cachePrefix, r.nodes, []).Ok? {
      ResolveFillsKeeps(s, r.cachePrefix, r.nodes, []);
      SpendSeedKeeps(ResolveFills(s, r.cachePrefix, r.nodes, []).value.0);
    } else {
      LeftByFillsKeeps(s, r.cachePrefix, r.nodes);
    }
  }

  /** A constant Fill reads its own text if and only if it is in the constant prefix, its id
      is new, or the variable that already has the id holds that very text.  It can only
      fail to where a placeholder's seed has the text as its numeral. */
  lemma ConstantReadsItself(s: Space, flag: bool, text: string)
    requires SpaceInv(s)
    ensures var (n, id) := Resolve(s, flag, Const(text)).value;
            && id in n.vars
            && (n.vars[id].content == Some(text) <==>
                  flag || Local(text) !in s.vars || s.vars[Local(text)].content == Some(text))
            && (n.vars[id].content != Some(text) ==> !flag && IsSeed(s, text) && s.vars[Local(text)].byName)
  {}

  /** Texts that are not plain numerals are always safe. */
  lemma NonNumeralIsNoSeed(s: Space, text: string, i: nat)
    requires i < |text| && !IsDigit(text[i])
    ensures !IsSeed(s, text)
  {
    forall k: nat | k < s.nextSeed ensures text != Str(k) { ValStr(k); }
  }

  /** The collision is real: in a fresh session the template "{{a}}0{{b}}" fills the value
      of a where the constant 0 stands ... */
  lemma NumeralReadsPlaceholder(value: string)
    ensures var r := CreateVars(Space(map[], 0), Request(true, [Value(value), Const("0")]));
            && r.Ok? && r.value.1.fills == [Local("0"), Local("0")]
            && Local("0") in r.value.0.vars && r.value.0.vars[Local("0")] == Var(true, Some(value))
  {
    assert Str(0) == "0" && Str(1) == "1";
    var nodes := [Value(value), Const("0")];
    var s1 := Space(map[Local("0") := Var(true, Some(value))], 1);
    assert nodes[1..] == [Const("0")] && nodes[1..][1..] == [];
    assert Resolve(Space(map[], 0), false, nodes[0]) == Ok((s1, Local("0")));
    assert ResolveFills(s1, false, [], [Local("0"), Local("0")]) == Ok((s1, [Local("0"), Local("0")]));
    assert [Local("0")] + [Local("0")] == [Local("0"), Local("0")];
    assert ResolveFills(s1, false, [Const("0")], [Local("0")]) == Ok((s1, [Local("0"), Local("0")]));
    var none: seq<VarId> := [];
    assert none + [Local("0")] == [Local("0")];
    assert ResolveFills(Space(map[], 0), true, nodes, none) == ResolveFills(s1, false, nodes[1..], [Local("0")]);
  }

  /** ... and "{{a}}1{{b}}" is rejected: the output variable's seed is taken. */
  lemma NumeralBlocksOutput(value: string)
    ensures CreateVars(Space(map[], 0), Request(true, [Value(value), Const("1")])) == Raised
  {
    assert Str(0) == "0" && Str(1) == "1";
    var nodes := [Value(value), Const("1")];
    var s1 := Space(map[Local("0") := Var(true, Some(value))], 1);
    var s2 := ByContent(s1, Local("1"));
    assert nodes[1..] == [Const("1")] && nodes[1..][1..] == [];
    assert Resolve(Space(map[], 0), false, nodes[0]) == Ok((s1, Local("0")));
    assert ResolveFills(s2, false, [], [Local("0")] + [Local("1")]) == Ok((s2, [Local("0")] + [Local("1")]));
    assert ResolveFills(s1, false, [Const("1")], [Local("0")]) == Ok((s2, [Local("0")] + [Local("1")]));
    var none: seq<VarId> := [];
    assert none + [Local("0")] == [Local("0")];
    assert ResolveFills(Space(map[], 0), true, nodes, none) == ResolveFills(s1, false, nodes[1..], [Local("0")]);
    assert ByName(s2, None) == Raised;
  }

  // ---------- When a request is rejected ----------

  /** Node j is a constant inside the constant prefix of the request. */
  ghost predicate InPrefix(flag: bool, nodes: seq<FillNode>, j: nat)
    requires j < |nodes|
  {
    flag && forall k :: 0 <= k <= j ==> nodes[k].Const?
  }

  /** How many of the first i nodes take a seed. */
  function Names(nodes: seq<FillNode>, i: nat): nat
    requires i <= |nodes|
  {
    if i == 0 then 0 else (if nodes[0].Value? then 1 else 0) + Names(nodes[1..], i - 1)
  }

  /** The numeral of the seed that is next after the first i nodes. */
  function NumeralAt(s: Space, nodes: seq<FillNode>, i: nat): string
    requires i <= |nodes|
  {
    Str(s.nextSeed + Names(nodes, i))
  }

  /** One of the first i nodes is a constant outside the prefix with this text. */
  ghost predicate EarlierConstant(flag: bool, nodes: seq<FillNode>, i: nat, text: string)
    requires i <= |nodes|
  {
    exists j :: 0 <= j < i && nodes[j] == Const(text) && !InPrefix(flag, nodes, j)
  }

  /** One of the first i nodes is a placeholder with an initial value whose seed has this
      numeral. */
  ghost predicate EarlierName(s: Space, nodes: seq<FillNode>, i: nat, text: string)
    requires i <= |nodes|
  {
    exists j :: 0 <= j < i && nodes[j].Value? && NumeralAt(s, nodes, j) == text
  }

  /** The next seed is of no use: its numeral is an id in the session or an earlier constant
      of the request. */
  ghost predicate SeedTaken(s: Space, flag: bool, nodes: seq<FillNode>, i: nat)
    requires i <= |nodes|
  {
    Local(NumeralAt(s, nodes, i)) in s.vars || EarlierConstant(flag, nodes, i, NumeralAt(s, nodes, i))
  }

  /** What is wrong with node i: a placeholder that takes a useless seed, or names a variable
      that neither the session nor the request has made. */
  ghost predicate NodeFault(s: Space, flag: bool, nodes: seq<FillNode>, i: nat)
    requires i < |nodes|
  {
    match nodes[i]
    case Const(_) => false
    case Value(_) => SeedTaken(s, flag, nodes, i)
    case Ref(id) =>
      !(id.Local? && (id in s.vars || EarlierConstant(flag, nodes, i, id.name) || EarlierName(s, nodes, i, id.name)))
  }

  lemma {:induction false} NamesGrow(nodes: seq<FillNode>, j: nat, i: nat)
    requires j < i <= |nodes| && nodes[j].Value?
    ensures Names(nodes, j) < Names(nodes, i)
  {
    if j > 0 {
      assert nodes[1..][j - 1] == nodes[j];
      NamesGrow(nodes[1..], j - 1, i - 1);
    }
  }

  /** Seeds of one request have different numerals. */
  lemma NumeralsDiffer(s: Space, nodes: seq<FillNode>, i: nat)
    requires i <= |nodes|
    ensures !EarlierName(s, nodes, i, NumeralAt(s, nodes, i))
  {
    forall j | 0 <= j < i && nodes[j].Value? ensures NumeralAt(s, nodes, j) != NumeralAt(s, nodes, i) {
      NamesGrow(nodes, j, i);
      if NumeralAt(s, nodes, j) == NumeralAt(s, nodes, i) {
        StrInjective(s.nextSeed + Names(nodes, j), s.nextSeed + Names(nodes, i));
      }
    }
  }

  /** The space after the first node, in the terms above. */
  ghost predicate FirstDone(s: Space, flag: bool, node: FillNode, n: Space) {
    && n.nextSeed == s.nextSeed + (if node.Value? then 1 else 0)
    && forall name :: Local(name) in n.vars <==>
         Local(name) in s.vars || (node == Const(name) && !flag) || (node.Value? && name == Str(s.nextSeed))
  }

  lemma ResolveDone(s: Space, flag: bool, node: FillNode)
    requires Resolve(s, flag && node.Const?, node).Ok?
    ensures FirstDone(s, flag, node, Resolve(s, flag && node.Const?, node).value.0)
  {}

  /** What the remaining nodes see of the first one. */
  lemma ShiftScope(s: Space, flag: bool, nodes: seq<FillNode>, n: Space, i: nat, text: string)
    requires nodes != [] && i < |nodes| && FirstDone(s, flag, nodes[0], n)
    ensures NumeralAt(n, nodes[1..], i) == NumeralAt(s, nodes, i + 1)
    ensures var flag' := flag && nodes[0].Const?;
            && (EarlierConstant(flag, nodes, i + 1, text) <==>
                  (nodes[0] == Const(text) && !flag) || EarlierConstant(flag', nodes[1..], i, text))
            && (EarlierName(s, nodes, i + 1, text) <==>
                  (nodes[0].Value? && text == Str(s.nextSeed)) || EarlierName(n, nodes[1..], i, text))
  {
  }

  /** The Fill nodes of a request are rejected exactly when one of them has a fault. */
  lemma {:induction false} FillsRejectedIff(s: Space, flag: bool, nodes: seq<FillNode>, done: seq<VarId>)
    ensures ResolveFills(s, flag, nodes, done).Raised? <==> exists i :: 0 <= i < |nodes| && NodeFault(s, flag, nodes, i)
    ensures ResolveFills(s, flag, nodes, done).Ok? ==>
              var n := ResolveFills(s, flag, nodes, done).value.0;
              && n.nextSeed == s.nextSeed + Names(nodes, |nodes|)
              && forall text :: Local(text) in n.vars <==>
                   || Local(text) in s.vars || EarlierConstant(flag, nodes, |nodes|, text)
                   || EarlierName(s, nodes, |nodes|, text)
    decreases |nodes|
  {
    hide EarlierConstant, EarlierName, Names, Resolve;
    if nodes == [] {
      NothingEarlier(s, flag, nodes);
    } else {
      var flag' := flag && nodes[0].Const?;
      FirstFault(s, flag, nodes);
      if Resolve(s, flag', nodes[0]).Ok? {
        var n := Resolve(s, flag', nodes[0]).value.0;
        var id := Resolve(s, flag', nodes[0]).value.1;
        ResolveDone(s, flag, nodes[0]);
        FillsRejectedIff(n, flag', nodes[1..], done + [id]);
        FaultsShift(s, flag, nodes, n, flag', nodes[1..]);
        forall text
          ensures (Local(text) in n.vars || EarlierConstant(flag', nodes[1..], |nodes| - 1, text)
                   || EarlierName(n, nodes[1..], |nodes| - 1, text))
              <==> (Local(text) in s.vars || EarlierConstant(flag, nodes, |nodes|, text)
                    || EarlierName(s, nodes, |nodes|, text))
        {
          ShiftScope(s, flag, nodes, n, |nodes| - 1, text);
        }
        NamesStep(nodes, |nodes|);
      }
    }
  }

  lemma NamesStep(nodes: seq<FillNode>, i: nat)
    requires 0 < i <= |nodes|
    ensures Names(nodes, i) == (if nodes[0].Value? then 1 else 0) + Names(nodes[1..], i - 1)
  {}

  lemma NothingEarlier(s: Space, flag: bool, nodes: seq<FillNode>)
    ensures Names(nodes, 0) == 0
    ensures forall text :: !EarlierConstant(flag, nodes, 0, text) && !EarlierName(s, nodes, 0, text)
  {}

  /** The first node is judged by the session alone. */
  lemma FirstFault(s: Space, flag: bool, nodes: seq<FillNode>)
    requires nodes != []
    ensures Resolve(s, flag && nodes[0].Const?, nodes[0]).Raised? <==> NodeFault(s, flag, nodes, 0)
  {
    NothingEarlier(s, flag, nodes);
  }

  lemma ShiftFault(s: Space, flag: bool, nodes: seq<FillNode>, n: Space, i: nat)
    requires nodes != [] && i < |nodes| - 1 && FirstDone(s, flag, nodes[0], n)
    ensures NodeFault(s, flag, nodes, i + 1) <==> NodeFault(n, flag && nodes[0].Const?, nodes[1..], i)
  {
    hide EarlierConstant, EarlierName, Names;
    match nodes[i + 1]
    case Const(_) =>
    case Value(_) =>
      ShiftScope(s, flag, nodes, n, i, NumeralAt(s, nodes, i + 1));
      NumeralsDiffer(s, nodes, i + 1);
    case Ref(id) => ShiftScope(s, flag, nodes, n, i, id.name);
  }

  lemma FaultsShift(s: Space, flag: bool, nodes: seq<FillNode>, n: Space, flag': bool, rest: seq<FillNode>)
    requires nodes != [] && !NodeFault(s, flag, nodes, 0) && FirstDone(s, flag, nodes[0], n)
    requires flag' == (flag && nodes[0].Const?) && rest == nodes[1..]
    ensures (exists i :: 0 <= i < |nodes| && NodeFault(s, flag, nodes, i)) <==>
              (exists i :: 0 <= i < |rest| && NodeFault(n, flag', rest, i))
  {
    hide NodeFault;
    if i :| 0 <= i < |nodes| && NodeFault(s, flag, nodes, i) {
      ShiftFault(s, flag, nodes, n, i - 1);
      assert NodeFault(n, flag', rest, i - 1);
    }
    if i :| 0 <= i < |rest| && NodeFault(n, flag', rest, i) {
      ShiftFault(s, flag, nodes, n, i);
      assert NodeFault(s, flag, nodes, i + 1);
    }
  }

  /** A request is rejected if and only if one of its Fill nodes has a fault or the seed for
      its output is taken. */
  lemma RejectedIff(s: Space, r: Request)
    ensures CreateVars(s, r).Raised? <==>
              (exists i :: 0 <= i < |r.nodes| && NodeFault(s, r.cachePrefix, r.nodes, i))
              || SeedTaken(s, r.cachePrefix, r.nodes, |r.nodes|)
  {
    FillsRejectedIff(s, r.cachePrefix, r.nodes, []);
    NumeralsDiffer(s, r.nodes, |r.nodes|);
  }

  /** Where a request fails: at its first node with a fault, or behind the nodes, at the
      output, if none has one. */
  ghost predicate FailsAt(s: Space, flag: bool, nodes: seq<FillNode>, i: nat) {
    && i <= |nodes| && (forall j :: 0 <= j < i ==> !NodeFault(s, flag, nodes, j))
    && (i < |nodes| ==> NodeFault(s, flag, nodes, i))
  }

  /** The namespace holds what was there, unchanged, and what the first i nodes make. */
  ghost predicate MadeBy(s: Space, flag: bool, nodes: seq<FillNode>, i: nat, n: Space)
    requires i <= |nodes|
  {
    && (forall v :: v in s.vars ==> v in n.vars && n.vars[v] == s.vars[v])
    && forall text :: Local(text) in n.vars <==>
         Local(text) in s.vars || EarlierConstant(flag, nodes, i, text) || EarlierName(s, nodes, i, text)
  }

  lemma {:induction false} LeftByFillsExact(s: Space, flag: bool, nodes: seq<FillNode>, i: nat)
    requires i < |nodes| && FailsAt(s, flag, nodes, i)
    ensures var n := LeftByFills(s, flag, nodes);
            && MadeBy(s, flag, nodes, i, n)
            && n.nextSeed == s.nextSeed + Names(nodes, i) + if nodes[i].Value? then 1 else 0
    decreases |nodes|
  {
    hide EarlierConstant, EarlierName, Names, Resolve, NodeFault;
    FirstFault(s, flag, nodes);
    if i == 0 {
      NothingEarlier(s, flag, nodes);
    } else {
      var flag' := flag && nodes[0].Const?;
      var n := Resolve(s, flag', nodes[0]).value.0;
      var rest := nodes[1..];
      ResolveDone(s, flag, nodes[0]);
      ResolveOnlyAdds(s, flag', nodes[0]);
      forall j: nat | j < i ensures NodeFault(n, flag', rest, j) <==> NodeFault(s, flag, nodes, j + 1) {
        ShiftFault(s, flag, nodes, n, j);
      }
      LeftByFillsExact(n, flag', rest, i - 1);
      var left := LeftByFills(s, flag, nodes);
      forall text
        ensures Local(text) in left.vars <==>
                  Local(text) in s.vars || EarlierConstant(flag, nodes, i, text) || EarlierName(s, nodes, i, text)
      {
        ShiftScope(s, flag, nodes, n, i - 1, text);
      }
      NamesStep(nodes, i);
    }
  }

  lemma ResolveOnlyAdds(s: Space, flag: bool, node: FillNode)
    requires Resolve(s, flag, node).Ok?
    ensures forall v :: v in s.vars ==>
              v in Resolve(s, flag, node).value.0.vars && Resolve(s, flag, node).value.0.vars[v] == s.vars[v]
  {}

  lemma {:induction false} FillsOnlyAdd(s: Space, flag: bool, nodes: seq<FillNode>, done: seq<VarId>)
    requires ResolveFills(s, flag, nodes, done).Ok?
    ensures var n := ResolveFills(s, flag, nodes, done).value.0;
            forall v :: v in s.vars ==> v in n.vars && n.vars[v] == s.vars[v]
    decreases |nodes|
  {
    if nodes != [] {
      var flag' := flag && nodes[0].Const?;
      var r := Resolve(s, flag', nodes[0]).value;
      ResolveOnlyAdds(s, flag', nodes[0]);
      FillsOnlyAdd(r.0, flag', nodes[1..], done + [r.1]);
    }
  }

  /** A rejected request leaves exactly what its nodes before the failure made, and has spent
      their seeds and the one that turned out to be taken. */
  lemma LeftBehindExact(s: Space, r: Request, i: nat)
    requires CreateVars(s, r).Raised? && FailsAt(s, r.cachePrefix, r.nodes, i)
    ensures var n := LeftBehind(s, r);
            && MadeBy(s, r.cachePrefix, r.nodes, i, n)
            && n.nextSeed == s.nextSeed + Names(r.nodes, i) + if i == |r.nodes| || r.nodes[i].Value? then 1 else 0
  {
    hide EarlierConstant, EarlierName, Names, Resolve, NodeFault, ResolveFills, LeftByFills;
    FillsRejectedIff(s, r.cachePrefix, r.nodes, []);
    if i < |r.nodes| {
      LeftByFillsExact(s, r.cachePrefix, r.nodes, i);
    } else {
      FillsOnlyAdd(s, r.cachePrefix, r.nodes, []);
    }
  }

  // ---------- What the constants of an accepted request read ----------

  /** An earlier placeholder of the request has the text as its seed's numeral and holds
      something else. */
  ghost predicate EarlierOther(s: Space, nodes: seq<FillNode>, i: nat, text: string)
    requires i <= |nodes|
  {
    exists j :: 0 <= j < i && nodes[j].Value? && NumeralAt(s, nodes, j) == text && nodes[j].value != text
  }

  ghost predicate HoldsOther(s: Space, text: string) {
    Local(text) in s.vars && s.vars[Local(text)].content != Some(text)
  }

  lemma ShiftOther(s: Space, flag: bool, nodes: seq<FillNode>, n: Space, i: nat, text: string)
    requires nodes != [] && i < |nodes| && SpaceInv(s)
    requires Resolve(s, flag && nodes[0].Const?, nodes[0]).Ok?
    requires n == Resolve(s, flag && nodes[0].Const?, nodes[0]).value.0
    ensures HoldsOther(n, text) || EarlierOther(n, nodes[1..], i, text)
            <==> HoldsOther(s, text) || EarlierOther(s, nodes, i + 1, text)
  {
    ResolveDone(s, flag, nodes[0]);
    var rest := nodes[1..];
    forall j | 0 <= j < |rest| ensures NumeralAt(n, rest, j) == NumeralAt(s, nodes, j + 1) {
      ShiftScope(s, flag, nodes, n, j, text);
    }
    if j :| 0 <= j < i && rest[j].Value? && NumeralAt(n, rest, j) == text && rest[j].value != text {
      assert nodes[j + 1] == rest[j] && NumeralAt(s, nodes, j + 1) == text;
    }
    if j :| 0 <= j < i + 1 && nodes[j].Value? && NumeralAt(s, nodes, j) == text && nodes[j].value != text {
      assert j > 0 ==> rest[j - 1] == nodes[j] && NumeralAt(n, rest, j - 1) == text;
    }
    if HoldsOther(n, text) && !HoldsOther(s, text) {
      assert nodes[0].Value? && text == NumeralAt(s, nodes, 0) && nodes[0].value != text;
    }
  }

  lemma {:induction false} FillsRead(s: Space, flag: bool, nodes: seq<FillNode>, done: seq<VarId>, i: nat)
    requires SpaceInv(s) && ResolveFills(s, flag, nodes, done).Ok? && i < |nodes| && nodes[i].Const?
    requires forall k :: 0 <= k < |done| ==> done[k] in s.vars
    ensures var (n, fills) := ResolveFills(s, flag, nodes, done).value;
            var text := nodes[i].text;
            && |fills| == |done| + |nodes| && fills[|done| + i] in n.vars
            && (n.vars[fills[|done| + i]].content != Some(text) <==>
                  !InPrefix(flag, nodes, i) && (HoldsOther(s, text) || EarlierOther(s, nodes, i, text)))
    decreases |nodes|
  {
    hide SpaceInv, EarlierOther, Resolve;
    var flag' := flag && nodes[0].Const?;
    var (n1, id) := Resolve(s, flag', nodes[0]).value;
    ResolveKeeps(s, flag', nodes[0]);
    var rest := nodes[1..];
    ResolveFillsKeeps(n1, flag', rest, done + [id]);
    var text := nodes[i].text;
    if i == 0 {
      ConstantReadsItself(s, flag', text);
      NoEarlierOther(s, nodes, text);
    } else {
      FillsRead(n1, flag', rest, done + [id], i - 1);
      ShiftOther(s, flag, nodes, n1, i - 1, text);
      PrefixShift(flag, nodes, i);
    }
  }

  lemma NoEarlierOther(s: Space, nodes: seq<FillNode>, text: string)
    ensures !EarlierOther(s, nodes, 0, text)
  {}

  lemma PrefixShift(flag: bool, nodes: seq<FillNode>, i: nat)
    requires 0 < i < |nodes|
    ensures InPrefix(flag, nodes, i) <==> InPrefix(flag && nodes[0].Const?, nodes[1..], i - 1)
  {
    if InPrefix(flag && nodes[0].Const?, nodes[1..], i - 1) {
      forall k | 0 <= k <= i ensures nodes[k].Const? { assert k > 0 ==> nodes[1..][k - 1].Const?; }
    }
  }

  /** In every accepted request, constant i reads another text if and only if it is outside
      the constant prefix and its text is the numeral of a variable of the session, or of an
      earlier placeholder of the request, that holds something else. */
  lemma ConstantMisreadIff(s: Space, r: Request, i: nat)
    requires SpaceInv(s) && CreateVars(s, r).Ok? && i < |r.nodes| && r.nodes[i].Const?
    ensures var (n, c) := CreateVars(s, r).value;
            var text := r.nodes[i].text;
            && |c.fills| == |r.nodes| && c.fills[i] in n.vars
            && (n.vars[c.fills[i]].content != Some(text) <==>
                  !InPrefix(r.cachePrefix, r.nodes, i) && (HoldsOther(s, text) || EarlierOther(s, r.nodes, i, text)))
  {
    hide SpaceInv, EarlierOther, InPrefix, HoldsOther;
    FillsRead(s, r.cachePrefix, r.nodes, [], i);
    var f := ResolveFills(s, r.cachePrefix, r.nodes, []).value;
    var none: seq<VarId> := [];
    assert |none| + i == i;
  }

  // ---------- What every node of an accepted request reads ----------

  /** The variable of node i: a constant's is the one with its text, in the global namespace
      within the prefix; a placeholder with a value has a new one that holds exactly the
      value; a placeholder that names a variable has that very variable, as it was. */
  ghost predicate FillOk(s: Space, flag: bool, nodes: seq<FillNode>, n: Space, i: nat, id: VarId)
    requires i < |nodes|
  {
    && id in n.vars
    && match nodes[i]
       case Const(text) => id == if InPrefix(flag, nodes, i) then Global(text) else Local(text)
       case Value(v) => id == Local(NumeralAt(s, nodes, i)) && id !in s.vars && n.vars[id] == Var(true, Some(v))
       case Ref(named) => id == named && named.Local? && (named in s.vars ==> n.vars[named] == s.vars[named])
  }

  lemma {:induction false} FillsAre(s: Space, flag: bool, nodes: seq<FillNode>, done: seq<VarId>, i: nat)
    requires SpaceInv(s) && ResolveFills(s, flag, nodes, done).Ok? && i < |nodes|
    requires forall k :: 0 <= k < |done| ==> done[k] in s.vars
    ensures var (n, fills) := ResolveFills(s, flag, nodes, done).value;
            |fills| == |done| + |nodes| && FillOk(s, flag, nodes, n, i, fills[|done| + i])
    decreases |nodes|
  {
    hide SpaceInv, Names, FillOk;
    var flag' := flag && nodes[0].Const?;
    var (n1, id) := Resolve(s, flag', nodes[0]).value;
    ResolveKeeps(s, flag', nodes[0]);
    var rest := nodes[1..];
    ResolveFillsKeeps(n1, flag', rest, done + [id]);
    var (n, fills) := ResolveFills(s, flag, nodes, done).value;
    if i == 0 {
      FirstFillOk(s, flag, nodes, n, id);
      assert (done + [id])[|done|] == id && (done + [id]) <= fills;
    } else {
      FillsAre(n1, flag', rest, done + [id], i - 1);
      ShiftFillOk(s, flag, nodes, n1, n, i, fills[|done| + i]);
    }
  }

  lemma FirstFillOk(s: Space, flag: bool, nodes: seq<FillNode>, n: Space, id: VarId)
    requires nodes != [] && Resolve(s, flag && nodes[0].Const?, nodes[0]).Ok?
    requires Resolve(s, flag && nodes[0].Const?, nodes[0]).value.1 == id
    requires var n1 := Resolve(s, flag && nodes[0].Const?, nodes[0]).value.0;
             id in n1.vars && forall v :: v in n1.vars ==> v in n.vars && n.vars[v] == n1.vars[v]
    ensures FillOk(s, flag, nodes, n, 0, id)
  {
    assert Names(nodes, 0) == 0;
  }

  lemma ShiftFillOk(s: Space, flag: bool, nodes: seq<FillNode>, n1: Space, n: Space, i: nat, id: VarId)
    requires SpaceInv(s) && 0 < i < |nodes|
    requires Resolve(s, flag && nodes[0].Const?, nodes[0]).Ok?
    requires n1 == Resolve(s, flag && nodes[0].Const?, nodes[0]).value.0
    requires FillOk(n1, flag && nodes[0].Const?, nodes[1..], n, i - 1, id)
    ensures FillOk(s, flag, nodes, n, i, id)
  {
    hide SpaceInv, Names;
    ResolveKeeps(s, flag && nodes[0].Const?, nodes[0]);
    ResolveDone(s, flag, nodes[0]);
    ShiftScope(s, flag, nodes, n1, i - 1, "");
    PrefixShift(flag, nodes, i);
  }

  /** For every accepted request: each node reads the variable it should, the placeholders
      with values have pairwise different new variables, the output is new, different from
      all inputs and without content, and nothing that existed has changed. */
  ghost predicate ReadsAsWritten(s: Space, r: Request, n: Space, c: Chain) {
    && |c.fills| == |r.nodes|
    && (forall i :: 0 <= i < |r.nodes| ==> FillOk(s, r.cachePrefix, r.nodes, n, i, c.fills[i]))
    && (forall i, j :: 0 <= i < j < |r.nodes| && r.nodes[i].Value? && r.nodes[j].Value? ==> c.fills[i] != c.fills[j])
    && c.gen !in s.vars && c.gen in n.vars && n.vars[c.gen] == Var(true, None)
    && (forall i :: 0 <= i < |c.fills| ==> c.fills[i] != c.gen)
    && (forall v :: v in s.vars ==> v in n.vars && n.vars[v] == s.vars[v])
  }

  lemma RequestReads(s: Space, r: Request)
    requires SpaceInv(s) && CreateVars(s, r).Ok?
    ensures ReadsAsWritten(s, r, CreateVars(s, r).value.0, CreateVars(s, r).value.1)
  {
    hide SpaceInv, Names, InPrefix;
    ResolveFillsKeeps(s, r.cachePrefix, r.nodes, []);
    var f := ResolveFills(s, r.cachePrefix, r.nodes, []).value;
    var (n, c) := CreateVars(s, r).value;
    var none: seq<VarId> := [];
    forall i | 0 <= i < |r.nodes| ensures FillOk(s, r.cachePrefix, r.nodes, n, i, c.fills[i]) {
      FillsAre(s, r.cachePrefix, r.nodes, [], i);
      assert |none| + i == i;
      assert FillOk(s, r.cachePrefix, r.nodes, f.0, i, f.1[i]);
    }
    forall i, j | 0 <= i < j < |r.nodes| && r.nodes[i].Value? && r.nodes[j].Value? ensures c.fills[i] != c.fills[j] {
      NumeralsDiffer(s, r.nodes, j);
      assert FillOk(s, r.cachePrefix, r.nodes, n, i, c.fills[i]) && FillOk(s, r.cachePrefix, r.nodes, n, j, c.fills[j]);
    }
  }

  // ---------- The graph ----------

  /** Completion chains in insertion order, and each variable's producing chain. */
  datatype Graph = Graph(space: Space, chains: seq<Chain>, producer: map<VarId, nat>)

  /** Create the request's variables and insert its chain; raises if either fails. */
  function AddRequest(g: Graph, r: Request): Result<Graph> {
    var c :- CreateVars(g.space, r);
    if c.1.gen in g.producer then Raised
    else Ok(Graph(c.0, g.chains + [c.1], g.producer[c.1.gen := |g.chains|]))
  }

  /** Every edge goes from an earlier to a later chain, and a variable has at most one
      producer. */
  ghost predicate GraphInv(g: Graph) {
    && SpaceInv(g.space)
    && (forall v :: v in g.producer ==>
         v.Local? && v in g.space.vars && g.producer[v] < |g.chains| && g.chains[g.producer[v]].gen == v)
    && (forall k :: 0 <= k < |g.chains| ==> g.chains[k].gen in g.producer && g.producer[g.chains[k].gen] == k)
    && (forall k, i :: 0 <= k < |g.chains| && 0 <= i < |g.chains[k].fills| && g.chains[k].fills[i] in g.producer ==>
          g.producer[g.chains[k].fills[i]] < k)
    && (forall k, i :: 0 <= k < |g.chains| && 0 <= i < |g.chains[k].fills| ==> g.chains[k].fills[i] in g.space.vars)
  }

  lemma {:induction false} ResolveFillsKeeps(s: Space, flag: bool, nodes: seq<FillNode>, done: seq<VarId>)
    requires SpaceInv(s) && ResolveFills(s, flag, nodes, done).Ok?
    requires forall i :: 0 <= i < |done| ==> done[i] in s.vars
    ensures var (n, fills) := ResolveFills(s, flag, nodes, done).value;
            && SpaceInv(n) && |fills| == |done| + |nodes|
            && (forall v :: v in s.vars ==> v in n.vars && n.vars[v] == s.vars[v])
            && (forall i :: 0 <= i < |fills| ==> fills[i] in n.vars)
            && done <= fills
    decreases |nodes|
  {
    if nodes != [] {
      var flag' := flag && nodes[0].Const?;
      ResolveKeeps(s, flag', nodes[0]);
      var r := Resolve(s, flag', nodes[0]).value;
      ResolveFillsKeeps(r.0, flag', nodes[1..], done + [r.1]);
    }
  }

  /** Inserting a request never trips the single-producer assertion and keeps the graph
      acyclic: its inputs existed before, its output is new. */
  lemma AddRequestKeeps(g: Graph, r: Request)
    requires GraphInv(g)
    ensures AddRequest(g, r).Raised? <==> CreateVars(g.space, r).Raised?
    ensures AddRequest(g, r).Ok? ==> GraphInv(AddRequest(g, r).value)
    ensures AddRequest(g, r).Ok? ==> g.chains <= AddRequest(g, r).value.chains
    ensures AddRequest(g, r).Ok? ==>
            forall v :: v in g.producer ==>
              v in AddRequest(g, r).value.producer && AddRequest(g, r).value.producer[v] == g.producer[v]
  {
    hide SpaceInv;
    SpaceOf(g);
    if CreateVars(g.space, r).Ok? {
      CreatedVars(g.space, r);
      AddChainKeeps(g, CreateVars(g.space, r).value.0, CreateVars(g.space, r).value.1);
    }
  }

  lemma SpaceOf(g: Graph)
    requires GraphInv(g)
    ensures SpaceInv(g.space)
  {}

  /** The variables of an accepted request: the inputs exist, the output is new. */
  lemma CreatedVars(s: Space, r: Request)
    requires SpaceInv(s) && CreateVars(s, r).Ok?
    ensures var (n, c) := CreateVars(s, r).value;
            && SpaceInv(n) && s.vars.Keys <= n.vars.Keys && c.gen.Local? && c.gen in n.vars && c.gen !in s.vars
            && forall i :: 0 <= i < |c.fills| ==> c.fills[i] in n.vars && c.fills[i] != c.gen
  {
    hide SpaceInv;
    ResolveFillsKeeps(s, r.cachePrefix, r.nodes, []);
    var f := ResolveFills(s, r.cachePrefix, r.nodes, []).value;
    var (n, c) := CreateVars(s, r).value;
    assert c.gen !in f.0.vars;
    SpaceAfterName(f.0, n, c.gen);
  }

  /** The edges an accepted request adds: its node i hangs on chain k exactly if it names the
      output of chain k (or is a local constant that collides with that output's id). */
  lemma NewEdges(g: Graph, r: Request, i: nat, k: nat)
    requires GraphInv(g) && AddRequest(g, r).Ok? && i < |r.nodes| && k < |g.chains|
    ensures var h := AddRequest(g, r).value;
            var last := |g.chains|;
            && |h.chains| == last + 1 && h.chains[..last] == g.chains && |h.chains[last].fills| == |r.nodes|
            && h.producer == g.producer[h.chains[last].gen := last]
            && var id := h.chains[last].fills[i];
               (id in h.producer && h.producer[id] == k <==>
                  || (r.nodes[i].Ref? && r.nodes[i].id == g.chains[k].gen)
                  || (r.nodes[i].Const? && !InPrefix(r.cachePrefix, r.nodes, i)
                     && Local(r.nodes[i].text) == g.chains[k].gen))
  {
    hide SpaceInv, InPrefix, Names;
    SpaceOf(g);
    RequestReads(g.space, r);
    OutputsAreLocal(g, k);
    var (n, c) := CreateVars(g.space, r).value;
    assert FillOk(g.space, r.cachePrefix, r.nodes, n, i, c.fills[i]);
  }

  /** A produced variable is local and existed before. */
  lemma OutputsAreLocal(g: Graph, k: nat)
    requires GraphInv(g) && k < |g.chains|
    ensures g.chains[k].gen in g.producer && g.producer[g.chains[k].gen] == k && g.chains[k].gen in g.space.vars
    ensures g.chains[k].gen.Local?
    ensures forall v :: v in g.producer && g.producer[v] == k ==> v == g.chains[k].gen
  {
    hide SpaceInv;
  }

  lemma AddChainKeeps(g: Graph, s: Space, c: Chain)
    requires GraphInv(g) && SpaceInv(s) && g.space.vars.Keys <= s.vars.Keys && c.gen in s.vars && c.gen !in g.space.vars
    requires c.gen.Local? && forall i :: 0 <= i < |c.fills| ==> c.fills[i] in s.vars && c.fills[i] != c.gen
    ensures c.gen !in g.producer && GraphInv(Graph(s, g.chains + [c], g.producer[c.gen := |g.chains|]))
  {
    hide SpaceInv;
  }

  lemma SpaceAfterName(s: Space, n: Space, id: VarId)
    requires SpaceInv(s) && id == Local(Str(s.nextSeed)) && n == Space(s.vars[id := Var(true, None)], s.nextSeed + 1)
    ensures SpaceInv(n)
  {
    forall v | v in n.vars && n.vars[v].byName ensures IsSeed(n, v.name) {
      if v != id {
        var k: nat :| k < s.nextSeed && v.name == Str(k);
        assert k < n.nextSeed;
      } else {
        assert v.name == Str(s.nextSeed);
      }
    }
  }

  // ---------- Depth ----------

  function Max(a: nat, b: nat): nat { if a < b then b else a }

  /** How deep a variable is: 0 without a producer, else one more than its deepest
      input. */
  function Depth(g: Graph, v: VarId): nat
    requires GraphInv(g)
    decreases if v in g.producer then g.producer[v] + 1 else 0, 1, 0
  {
    if v !in g.producer then 0
    else DepthOf(g, g.producer[v], |g.chains[g.producer[v]].fills|)
  }

  function DepthOf(g: Graph, k: nat, n: nat): nat
    requires GraphInv(g) && k < |g.chains| && n <= |g.chains[k].fills|
    decreases k + 1, 0, n
  {
    if n == 0 then 0
    else Max(DepthOf(g, k, n - 1), Depth(g, g.chains[k].fills[n - 1]) + 1)
  }

  /** A path backwards through the graph: each variable is an input of the chain that
      produces the one before it. */
  ghost predicate IsPath(g: Graph, p: seq<VarId>)
    requires GraphInv(g)
  {
    && p != []
    && forall i :: 0 <= i < |p| - 1 ==> p[i] in g.producer && p[i + 1] in g.chains[g.producer[p[i]]].fills
  }

  lemma {:induction false} DepthOfBounds(g: Graph, k: nat, n: nat, i: nat)
    requires GraphInv(g) && k < |g.chains| && i < n <= |g.chains[k].fills|
    ensures DepthOf(g, k, n) >= Depth(g, g.chains[k].fills[i]) + 1
    decreases n
  {
    if i < n - 1 { DepthOfBounds(g, k, n - 1, i); }
  }

  /** No path is longer than the depth ... */
  lemma {:induction false} DepthBoundsPaths(g: Graph, p: seq<VarId>)
    requires GraphInv(g) && IsPath(g, p)
    ensures |p| - 1 <= Depth(g, p[0])
    decreases |p|
  {
    if |p| > 1 {
      var k := g.producer[p[0]];
      var i :| 0 <= i < |g.chains[k].fills| && g.chains[k].fills[i] == p[1];
      DepthOfBounds(g, k, |g.chains[k].fills|, i);
      assert IsPath(g, p[1..]);
      DepthBoundsPaths(g, p[1..]);
    }
  }

  lemma {:induction false} DeepestInput(g: Graph, k: nat, n: nat) returns (i: nat)
    requires GraphInv(g) && k < |g.chains| && n <= |g.chains[k].fills| && DepthOf(g, k, n) > 0
    ensures i < n && DepthOf(g, k, n) == Depth(g, g.chains[k].fills[i]) + 1
    decreases n
  {
    if DepthOf(g, k, n) == Depth(g, g.chains[k].fills[n - 1]) + 1 {
      i := n - 1;
    } else {
      i := DeepestInput(g, k, n - 1);
    }
  }

  /** ... and some path is that long. */
  lemma {:induction false} DepthAttained(g: Graph, v: VarId) returns (p: seq<VarId>)
    requires GraphInv(g)
    ensures IsPath(g, p) && p[0] == v && |p| - 1 == Depth(g, v)
    decreases Depth(g, v)
  {
    p := [v];
    if Depth(g, v) > 0 {
      var k := g.producer[v];
      var i := DeepestInput(g, k, |g.chains[k].fills|);
      var rest := DepthAttained(g, g.chains[k].fills[i]);
      p := [v] + rest;
      forall j | 0 <= j < |p| - 1 ensures p[j] in g.producer && p[j + 1] in g.chains[g.producer[p[j]]].fills {
        if j > 0 { assert p[j] == rest[j - 1] && p[j + 1] == rest[j]; }
      }
    }
  }

  // ---------- Activation ----------

  datatype Criteria = Latency | Throughput

  datatype Mark = Mark(criteria: Criteria, depth: nat)

  /** Activated variables, and for each chain the groups it was put into. */
  datatype Activation = Activation(marks: map<VarId, Mark>, groups: map<nat, seq<nat>>, nextGroup: nat)

  function GroupsOf(a: Activation, k: nat): seq<nat> {
    if k in a.groups then a.groups[k] else []
  }

  function Join(a: Activation, k: nat, group: Option<nat>): Activation {
    if group.None? then a else a.(groups := a.groups[k := GroupsOf(a, k) + [group.value]])
  }

  /** `_traverse`: returns the activation and the depth of the variable. */
  function Traverse(g: Graph, a: Activation, v: VarId, crit: Criteria, group: Option<nat>): (Activation, nat)
    requires GraphInv(g)
    decreases if v in g.producer then g.producer[v] + 1 else 0, 1, 0
  {
    if v !in g.producer then (a, 0)
    else if v in a.marks then (a, a.marks[v].depth)
    else
      var k := g.producer[v];
      var b := Join(a, k, group);
      var (d, depth) := TraverseFills(g, b.(nextGroup := b.nextGroup + 1), k, |g.chains[k].fills|, crit, b.nextGroup);
      (d.(marks := d.marks[v := Mark(crit, depth)]), depth)
  }

  /** The loop over the first n Fill nodes of chain k, which all join one new group. */
  function TraverseFills(g: Graph, a: Activation, k: nat, n: nat, crit: Criteria, group: nat): (Activation, nat)
    requires GraphInv(g) && k < |g.chains| && n <= |g.chains[k].fills|
    decreases k + 1, 0, n
  {
    if n == 0 then (a, 0)
    else
      var (b, depth) := TraverseFills(g, a, k, n - 1, crit, group);
      var (c, prev) := Traverse(g, b, g.chains[k].fills[n - 1], crit, Some(group));
      (c, Max(depth, prev + 1))
  }

  /** The traversal of an unproduced, an activated and any other variable, and of one more
      Fill node. */
  lemma TraverseDone(g: Graph, a: Activation, v: VarId, crit: Criteria, group: Option<nat>)
    requires GraphInv(g) && (v !in g.producer || v in a.marks)
    ensures Traverse(g, a, v, crit, group) == (a, if v in g.producer then a.marks[v].depth else 0)
  {}

  lemma TraverseProduced(g: Graph, a: Activation, v: VarId, crit: Criteria, group: Option<nat>)
    requires GraphInv(g) && v in g.producer && v !in a.marks
    ensures g.producer[v] < |g.chains|
    ensures var k := g.producer[v];
            var b := Join(a, k, group);
            var r := TraverseFills(g, b.(nextGroup := b.nextGroup + 1), k, |g.chains[k].fills|, crit, b.nextGroup);
            Traverse(g, a, v, crit, group) == (r.0.(marks := r.0.marks[v := Mark(crit, r.1)]), r.1)
  {}

  lemma TraverseNoFills(g: Graph, a: Activation, k: nat, crit: Criteria, group: nat)
    requires GraphInv(g) && k < |g.chains|
    ensures TraverseFills(g, a, k, 0, crit, group) == (a, 0)
  {}

  lemma TraverseOneMore(g: Graph, a: Activation, k: nat, n: nat, crit: Criteria, group: nat)
    requires GraphInv(g) && k < |g.chains| && n < |g.chains[k].fills|
    ensures var r := TraverseFills(g, a, k, n, crit, group);
            var q := Traverse(g, r.0, g.chains[k].fills[n], crit, Some(group));
            TraverseFills(g, a, k, n + 1, crit, group) == (q.0, Max(r.1, q.1 + 1))
  {}

  /** A produced variable on some backward path from v: v itself if produced, or above one
      of the inputs of its chain. */
  ghost predicate Above(g: Graph, u: VarId, v: VarId)
    requires GraphInv(g)
    decreases if v in g.producer then g.producer[v] + 1 else 0, 1, 0
  {
    v in g.producer && (u == v || AboveOf(g, u, g.producer[v], |g.chains[g.producer[v]].fills|))
  }

  ghost predicate AboveOf(g: Graph, u: VarId, k: nat, n: nat)
    requires GraphInv(g) && k < |g.chains| && n <= |g.chains[k].fills|
    decreases k + 1, 0, n
  {
    n > 0 && (AboveOf(g, u, k, n - 1) || Above(g, u, g.chains[k].fills[n - 1]))
  }

  lemma {:induction false} AboveIsProduced(g: Graph, u: VarId, v: VarId)
    requires GraphInv(g) && Above(g, u, v)
    ensures u in g.producer && g.producer[u] <= g.producer[v]
    ensures u != v ==> g.producer[u] < g.producer[v]
    decreases if v in g.producer then g.producer[v] + 1 else 0, 1, 0
  {
    if u != v { AboveOfIsProduced(g, u, g.producer[v], |g.chains[g.producer[v]].fills|); }
  }

  lemma {:induction false} AboveOfIsProduced(g: Graph, u: VarId, k: nat, n: nat)
    requires GraphInv(g) && k < |g.chains| && n <= |g.chains[k].fills| && AboveOf(g, u, k, n)
    ensures u in g.producer && g.producer[u] < k
    decreases k + 1, 0, n
  {
    if AboveOf(g, u, k, n - 1) {
      AboveOfIsProduced(g, u, k, n - 1);
    } else {
      AboveIsProduced(g, u, g.chains[k].fills[n - 1]);
    }
  }

  /** Activated variables are produced, carry their true depth, and drag their ancestors
      along. */
  ghost predicate MarksOk(g: Graph, a: Activation)
    requires GraphInv(g)
  {
    && (forall v :: v in a.marks ==> v in g.producer && a.marks[v].depth == Depth(g, v))
    && (forall u, v :: v in a.marks && Above(g, u, v) ==> u in a.marks)
  }

  /** Chains below `bound` are in at most one group, and in none before their variable is
      activated. */
  ghost predicate GroupsOk(g: Graph, a: Activation, bound: nat)
    requires GraphInv(g) && bound <= |g.chains|
  {
    && (forall k :: 0 <= k < |g.chains| ==> |GroupsOf(a, k)| <= 1)
    && (forall k :: 0 <= k < bound && GroupsOf(a, k) != [] ==> g.chains[k].gen in a.marks)
  }

  /** What one traversal changes: marks are only added, with the given criteria. */
  ghost predicate Grows(a: Activation, b: Activation, crit: Criteria) {
    && (forall u :: u in a.marks ==> u in b.marks && b.marks[u] == a.marks[u])
    && (forall u :: u in b.marks && u !in a.marks ==> b.marks[u].criteria == crit)
  }

  ghost function Bound(g: Graph, v: VarId): nat
  {
    if v in g.producer then g.producer[v] + 1 else 0
  }

  lemma BoundFits(g: Graph, v: VarId)
    requires GraphInv(g)
    ensures Bound(g, v) <= |g.chains|
  {}

  /** The body of a traversal of an unmarked variable, before its inputs are visited: the
      chain joins its group. */
  lemma JoinKeeps(g: Graph, a: Activation, v: VarId, group: Option<nat>)
    requires GraphInv(g) && v in g.producer && v !in a.marks && MarksOk(g, a) && GroupsOk(g, a, g.producer[v] + 1)
    ensures var b := Join(a, g.producer[v], group);
            && b.marks == a.marks && MarksOk(g, b) && GroupsOk(g, b, g.producer[v])
            && (forall j :: j != g.producer[v] ==> GroupsOf(b, j) == GroupsOf(a, j))
  {
    var k := g.producer[v];
    assert GroupsOf(a, k) == [];
    var b := Join(a, k, group);
    forall j | 0 <= j < |g.chains| ensures |GroupsOf(b, j)| <= 1 {
      if j != k { assert GroupsOf(b, j) == GroupsOf(a, j); }
    }
  }

  /** `_traverse` computes the true depth, activates exactly the produced ancestors that
      were not activated yet, never activates one twice, and puts each chain into at most
      one group. */
  lemma {:induction false} TraverseSpec(g: Graph, a: Activation, v: VarId, crit: Criteria, group: Option<nat>)
    requires GraphInv(g) && MarksOk(g, a) && Bound(g, v) <= |g.chains| && GroupsOk(g, a, Bound(g, v))
    ensures var (b, depth) := Traverse(g, a, v, crit, group);
            && depth == Depth(g, v)
            && MarksOk(g, b) && GroupsOk(g, b, Bound(g, v)) && Grows(a, b, crit)
            && (forall u :: u in b.marks <==> u in a.marks || Above(g, u, v))
            && (forall j :: j >= Bound(g, v) ==> GroupsOf(b, j) == GroupsOf(a, j))
    decreases if v in g.producer then g.producer[v] + 1 else 0, 1, 0
  {
    hide GraphInv, MarksOk, GroupsOk, GroupsOf;
    if v in g.producer && v in a.marks {
      MarkedFacts(g, a, v);
    } else if v in g.producer {
      GraphFacts(g, v);
      var k := g.producer[v];
      var n := |g.chains[k].fills|;
      JoinKeeps(g, a, v, group);
      var b := Join(a, k, group);
      var c := b.(nextGroup := b.nextGroup + 1);
      NextGroupFrame(g, b, c, k);
      TraverseFillsSpec(g, c, k, n, crit, b.nextGroup);
      var (d, depth) := TraverseFills(g, c, k, n, crit, b.nextGroup);
      var e := d.(marks := d.marks[v := Mark(crit, depth)]);
      ActivateKeeps(g, d, e, v, crit);
      NotAboveItself(g, v);
      GroupsOfFrame(d, e);
    }
  }

  lemma GroupsOfFrame(d: Activation, e: Activation)
    requires d.groups == e.groups
    ensures forall j :: GroupsOf(d, j) == GroupsOf(e, j)
  {}

  lemma NextGroupFrame(g: Graph, b: Activation, c: Activation, bound: nat)
    requires GraphInv(g) && MarksOk(g, b) && bound <= |g.chains| && GroupsOk(g, b, bound)
    requires c.marks == b.marks && c.groups == b.groups
    ensures MarksOk(g, c) && GroupsOk(g, c, bound) && forall j :: GroupsOf(c, j) == GroupsOf(b, j)
  {
    GroupsOfFrame(b, c);
  }

  lemma GraphFacts(g: Graph, v: VarId)
    requires GraphInv(g) && v in g.producer
    ensures g.producer[v] < |g.chains| && g.chains[g.producer[v]].gen == v
  {}

  lemma MarkedFacts(g: Graph, a: Activation, v: VarId)
    requires GraphInv(g) && MarksOk(g, a) && v in a.marks
    ensures a.marks[v].depth == Depth(g, v) && forall u :: Above(g, u, v) ==> u in a.marks
  {}

  lemma NotAboveItself(g: Graph, v: VarId)
    requires GraphInv(g) && v in g.producer
    ensures !AboveOf(g, v, g.producer[v], |g.chains[g.producer[v]].fills|)
  {
    if AboveOf(g, v, g.producer[v], |g.chains[g.producer[v]].fills|) {
      AboveOfIsProduced(g, v, g.producer[v], |g.chains[g.producer[v]].fills|);
    }
  }

  lemma ActivateKeeps(g: Graph, d: Activation, e: Activation, v: VarId, crit: Criteria)
    requires GraphInv(g) && v in g.producer && g.producer[v] < |g.chains| && MarksOk(g, d)
             && GroupsOk(g, d, g.producer[v])
    requires g.chains[g.producer[v]].gen == v
    requires forall u :: AboveOf(g, u, g.producer[v], |g.chains[g.producer[v]].fills|) ==> u in d.marks
    requires e == d.(marks := d.marks[v := Mark(crit, Depth(g, v))])
    ensures MarksOk(g, e) && GroupsOk(g, e, g.producer[v] + 1)
  {
    hide GraphInv, Depth, MarksOk, Above, AboveOf;
    GroupsOfFrame(d, e);
    ActivateMarks(g, d, e, v, crit);
  }

  lemma ActivateMarks(g: Graph, d: Activation, e: Activation, v: VarId, crit: Criteria)
    requires GraphInv(g) && v in g.producer && g.producer[v] < |g.chains| && MarksOk(g, d)
    requires forall u :: AboveOf(g, u, g.producer[v], |g.chains[g.producer[v]].fills|) ==> u in d.marks
    requires e == d.(marks := d.marks[v := Mark(crit, Depth(g, v))])
    ensures MarksOk(g, e)
  {
    hide GraphInv, Depth, AboveOf, Above;
    forall u, w | w in e.marks && Above(g, u, w) ensures u in e.marks {
      if w == v { AboveCases(g, u, v); }
    }
  }

  lemma AboveCases(g: Graph, u: VarId, v: VarId)
    requires GraphInv(g) && v in g.producer && g.producer[v] < |g.chains| && Above(g, u, v)
    ensures u == v || AboveOf(g, u, g.producer[v], |g.chains[g.producer[v]].fills|)
  {}

  lemma {:induction false} TraverseFillsSpec(g: Graph, a: Activation, k: nat, n: nat, crit: Criteria, group: nat)
    requires GraphInv(g) && k < |g.chains| && n <= |g.chains[k].fills| && MarksOk(g, a) && GroupsOk(g, a, k)
    ensures var (b, depth) := TraverseFills(g, a, k, n, crit, group);
            && depth == DepthOf(g, k, n)
            && MarksOk(g, b) && GroupsOk(g, b, k) && Grows(a, b, crit)
            && (forall u :: u in b.marks <==> u in a.marks || AboveOf(g, u, k, n))
            && (forall j :: j >= k ==> GroupsOf(b, j) == GroupsOf(a, j))
    decreases k + 1, 0, n
  {
    hide GraphInv, MarksOk, GroupsOk, GroupsOf;
    if n > 0 {
      TraverseFillsSpec(g, a, k, n - 1, crit, group);
      var (b, depth) := TraverseFills(g, a, k, n - 1, crit, group);
      var f := g.chains[k].fills[n - 1];
      InputsEarlier(g, k, n - 1);
      LowerBound(g, b, k, Bound(g, f));
      TraverseSpec(g, b, f, crit, Some(group));
      var (c, prev) := Traverse(g, b, f, crit, Some(group));
      RaiseBound(g, b, c, Bound(g, f), k);
    }
  }

  lemma InputsEarlier(g: Graph, k: nat, i: nat)
    requires GraphInv(g) && k < |g.chains| && i < |g.chains[k].fills|
    ensures Bound(g, g.chains[k].fills[i]) <= k
  {}

  lemma LowerBound(g: Graph, a: Activation, k: nat, bound: nat)
    requires GraphInv(g) && bound <= k <= |g.chains| && GroupsOk(g, a, k)
    ensures GroupsOk(g, a, bound)
  {}

  lemma RaiseBound(g: Graph, b: Activation, c: Activation, bound: nat, k: nat)
    requires GraphInv(g) && bound <= k <= |g.chains| && GroupsOk(g, b, k) && GroupsOk(g, c, bound)
    requires forall j :: j >= bound ==> GroupsOf(c, j) == GroupsOf(b, j)
    requires forall u :: u in b.marks ==> u in c.marks
    ensures GroupsOk(g, c, k)
  {}

  // ---------- Whole sessions ----------

  datatype Session = Session(graph: Graph, act: Activation)

  /** A request arrives, a client registers a variable of its own, or asks for the value of
      a variable. */
  datatype Event = Add(r: Request) | Register | Get(v: VarId, crit: Criteria)

  /** `get` activates a variable that has a producer and is not activated; a request that
      is rejected inserts nothing but may have made variables and spent a seed. */
  function Handle(s: Session, e: Event): Session
    requires GraphInv(s.graph)
  {
    match e
    case Add(r) =>
      (match AddRequest(s.graph, r)
       case Ok(g) => s.(graph := g)
       case Raised => s.(graph := s.graph.(space := LeftBehind(s.graph.space, r))))
    case Register => s.(graph := s.graph.(space := Registered(s.graph.space)))
    case Get(v, crit) =>
      if v in s.graph.producer && v !in s.act.marks then s.(act := Traverse(s.graph, s.act, v, crit, None).0) else s
  }

  /** `create_var`: a variable by name without content or producer; a seed that turned out
      to be taken is spent. */
  function Registered(s: Space): Space {
    match ByName(s, None)
    case Ok(r) => r.0
    case Raised => s.(nextSeed := s.nextSeed + 1)
  }

  ghost predicate SessionInv(s: Session) {
    GraphInv(s.graph) && MarksOk(s.graph, s.act) && GroupsOk(s.graph, s.act, |s.graph.chains|)
    && forall k :: k >= |s.graph.chains| ==> GroupsOf(s.act, k) == []
  }

  /** h has the chains of g and possibly later ones. */
  ghost predicate Continues(g: Graph, h: Graph) {
    && g.chains <= h.chains
    && (forall u :: u in g.producer ==> u in h.producer && h.producer[u] == g.producer[u])
    && (forall u :: u in h.producer && u !in g.producer ==> h.producer[u] >= |g.chains|)
  }

  lemma InputsSame(g: Graph, h: Graph, k: nat, i: nat)
    requires GraphInv(g) && GraphInv(h) && Continues(g, h) && k < |g.chains| && i < |g.chains[k].fills|
    ensures k < |h.chains| && h.chains[k] == g.chains[k]
    ensures var f := g.chains[k].fills[i];
            (f in h.producer <==> f in g.producer) && (f in g.producer ==> g.producer[f] < k)
  {}

  lemma {:induction false} DepthStable(g: Graph, h: Graph, v: VarId)
    requires GraphInv(g) && GraphInv(h) && Continues(g, h) && v in g.producer
    ensures Depth(h, v) == Depth(g, v) && forall u :: Above(h, u, v) <==> Above(g, u, v)
    decreases g.producer[v], 1, 0
  {
    DepthOfStable(g, h, g.producer[v], |g.chains[g.producer[v]].fills|);
  }

  lemma {:induction false} DepthOfStable(g: Graph, h: Graph, k: nat, n: nat)
    requires GraphInv(g) && GraphInv(h) && Continues(g, h) && k < |g.chains| && n <= |g.chains[k].fills|
    ensures k < |h.chains| && n <= |h.chains[k].fills|
    ensures DepthOf(h, k, n) == DepthOf(g, k, n) && forall u :: AboveOf(h, u, k, n) <==> AboveOf(g, u, k, n)
    decreases k, 0, n
  {
    hide GraphInv;
    if n > 0 {
      DepthOfStable(g, h, k, n - 1);
      InputsSame(g, h, k, n - 1);
      if g.chains[k].fills[n - 1] in g.producer { DepthStable(g, h, g.chains[k].fills[n - 1]); }
    }
  }

  lemma AddKeepsMarks(g: Graph, h: Graph, a: Activation)
    requires GraphInv(g) && GraphInv(h) && Continues(g, h) && MarksOk(g, a)
    ensures MarksOk(h, a)
  {
    hide GraphInv;
    forall v | v in a.marks ensures v in h.producer && a.marks[v].depth == Depth(h, v)
      ensures forall u :: Above(h, u, v) ==> u in a.marks
    {
      DepthStable(g, h, v);
    }
  }

  lemma RejectKeeps(g: Graph, r: Request)
    requires GraphInv(g)
    ensures GraphInv(g.(space := LeftBehind(g.space, r)))
  {
    LeftBehindKeeps(g.space, r);
  }

  /** A registration spends one seed, makes a variable without content under its numeral if
      that id is free, and changes nothing else. */
  lemma RegisterKeeps(g: Graph)
    requires GraphInv(g)
    ensures GraphInv(g.(space := Registered(g.space)))
    ensures var (s, n, id) := (g.space, Registered(g.space), Local(Str(g.space.nextSeed)));
            && n.nextSeed == s.nextSeed + 1 && n.vars.Keys == s.vars.Keys + {id}
            && (forall v :: v in s.vars ==> n.vars[v] == s.vars[v])
            && (id !in s.vars ==> n.vars[id].content == None)
  {
    if ByName(g.space, None).Ok? {
      SpaceAfterName(g.space, ByName(g.space, None).value.0, ByName(g.space, None).value.1);
    } else {
      SpendSeedKeeps(g.space);
    }
  }

  lemma HandleKeeps(s: Session, e: Event)
    requires SessionInv(s)
    ensures SessionInv(Handle(s, e))
  {
    hide GraphInv, MarksOk;
    match e
    case Add(r) =>
      AddRequestKeeps(s.graph, r);
      if AddRequest(s.graph, r).Ok? {
        var h := AddRequest(s.graph, r).value;
        AddKeepsMarks(s.graph, h, s.act);
        assert GroupsOf(s.act, |s.graph.chains|) == [];
        forall k | 0 <= k < |h.chains| && GroupsOf(s.act, k) != []
          ensures k < |s.graph.chains| && h.chains[k].gen in s.act.marks
        {
          assert h.chains[k] == s.graph.chains[k];
        }
      } else {
        RejectKeeps(s.graph, r);
        AddKeepsMarks(s.graph, Handle(s, e).graph, s.act);
      }
    case Register =>
      RegisterKeeps(s.graph);
      AddKeepsMarks(s.graph, Handle(s, e).graph, s.act);
    case Get(v, crit) =>
      if v in s.graph.producer && v !in s.act.marks {
        var n := |s.graph.chains|;
        BoundFits(s.graph, v);
        LowerBound(s.graph, s.act, n, Bound(s.graph, v));
        TraverseSpec(s.graph, s.act, v, crit, None);
        RaiseBound(s.graph, s.act, Handle(s, e).act, Bound(s.graph, v), n);
      }
  }

  /** The traversal is defined on acyclic graphs only; `OneGroupPerChain` shows that every
      session has one, so asking for it excludes no run. */
  ghost predicate SessionRuns(events: seq<Event>, s: Session)
    decreases |events|
  {
    if events == [] then s == Session(Graph(Space(map[], 0), [], map[]), Activation(map[], map[], 0))
    else
      var k := |events| - 1;
      exists r :: SessionRuns(events[..k], r) && GraphInv(r.graph) && s == Handle(r, events[k])
  }

  /** After any sequence of requests and gets: the graph is acyclic with one producer per
      variable, activated variables carry their longest-path depth and have all their
      produced ancestors activated, and each chain is in at most one group. */
  lemma {:induction false} OneGroupPerChain(events: seq<Event>, s: Session)
    requires SessionRuns(events, s)
    ensures SessionInv(s)
    ensures forall k :: 0 <= k < |s.graph.chains| ==> |GroupsOf(s.act, k)| <= 1
    decreases |events|
  {
    hide GraphInv, MarksOk;
    if events == [] {
      EmptySession(s);
    } else {
      var k := |events| - 1;
      var r :| SessionRuns(events[..k], r) && GraphInv(r.graph) && s == Handle(r, events[k]);
      OneGroupPerChain(events[..k], r);
      HandleKeeps(r, events[k]);
    }
  }

  lemma EmptySession(s: Session)
    requires s == Session(Graph(Space(map[], 0), [], map[]), Activation(map[], map[], 0))
    ensures SessionInv(s)
  {}

  /** The effect of one `get`, in any reachable session: exactly the produced ancestors
      that were not activated become so, all with the criteria of this `get`. */
  lemma GetActivatesAncestors(events: seq<Event>, s: Session, v: VarId, crit: Criteria)
    requires SessionRuns(events, s) && v in s.graph.producer && v !in s.act.marks
    ensures GraphInv(s.graph)
    ensures var b := Traverse(s.graph, s.act, v, crit, None).0;
            && (forall u :: u in b.marks <==> u in s.act.marks || Above(s.graph, u, v))
            && (forall u :: u in s.act.marks ==> b.marks[u] == s.act.marks[u])
            && (forall u :: u in b.marks && u !in s.act.marks ==> b.marks[u] == Mark(crit, Depth(s.graph, u)))
  {
    hide GraphInv, GroupsOk;
    OneGroupPerChain(events, s);
    BoundFits(s.graph, v);
    LowerBound(s.graph, s.act, |s.graph.chains|, Bound(s.graph, v));
    TraverseSpec(s.graph, s.act, v, crit, None);
  }
}
