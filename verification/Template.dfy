/** Prompt templates: the frontend parser and printer (`parrot/frontend/pfunc/function.py`)
    and the server parser (`parrot/serve/graph/call_request.py`) of the same placeholder
    language. */
module Templates {
  import opened Wrappers

  datatype Piece = Text(text: string) | Hole(name: string)

  // ---------- The placeholder expression ----------

  predicate FirstChar(c: char) { 'a' <= c <= 'z' || 'A' <= c <= 'Z' || c == '_' }

  predicate NameChar(c: char) { FirstChar(c) || '0' <= c <= '9' }

  ghost predicate IsName(n: string) {
    n != [] && FirstChar(n[0]) && forall i :: 0 <= i < |n| ==> NameChar(n[i])
  }

  /** The characters of names, spelled out. */
  lemma NameAlphabet(c: char)
    ensures FirstChar(c) <==>
              c in "abcdefghijklmnopqrstuvwxyz" || c in "ABCDEFGHIJKLMNOPQRSTUVWXYZ" || c == '_'
    ensures NameChar(c) <==> FirstChar(c) || c in "0123456789"
  {
    ConsecutiveChars("abcdefghijklmnopqrstuvwxyz", 'a', c);
    ConsecutiveChars("ABCDEFGHIJKLMNOPQRSTUVWXYZ", 'A', c);
    ConsecutiveChars("0123456789", '0', c);
  }

  lemma ConsecutiveChars(s: string, first: char, c: char)
    requires forall i :: 0 <= i < |s| ==> s[i] as int == first as int + i
    ensures c in s <==> first as int <= c as int < first as int + |s|
  {
    if first as int <= c as int < first as int + |s| { assert s[c as int - first as int] == c; }
  }

  /** `get_param_str`. */
  function Braced(n: string): string { "{{" + n + "}}" }

  /** The length of the longest run of name characters at the start. */
  function Run(s: string): (r: nat)
    ensures r <= |s| && (forall i :: 0 <= i < r ==> NameChar(s[i])) && (r < |s| ==> !NameChar(s[r]))
  {
    if s == [] || !NameChar(s[0]) then 0 else
      var r := Run(s[1..]);
      assert forall i :: 0 < i < 1 + r ==> s[i] == s[1..][i - 1];
      1 + r
  }

  /** The length of the placeholder that the string starts with, 0 if it starts with
      none. */
  function HoleLen(s: string): (n: nat)
    ensures n <= |s| && (n > 0 ==> n >= 5)
  {
    if |s| < 5 || s[0] != '{' || s[1] != '{' || !FirstChar(s[2]) then 0 else
      var r := Run(s[2..]);
      if 4 + r <= |s| && s[2 + r] == '}' && s[3 + r] == '}' then
        assert NameChar(s[2..][0]);
        4 + r
      else 0
  }

  lemma HoleHere(s: string)
    requires HoleLen(s) > 0
    ensures var n := s[2..HoleLen(s) - 2]; IsName(n) && s[..HoleLen(s)] == Braced(n)
  {
    var r := Run(s[2..]);
    var n := s[2..2 + r];
    assert forall i :: 0 <= i < r ==> n[i] == s[2..][i];
    assert s[..4 + r] == Braced(n);
  }

  /** A string starts with a placeholder exactly when it extends a braced name, and the
      name is then unique: the expression can match in only one way. */
  lemma HoleFound(n: string, s: string)
    requires IsName(n) && Braced(n) <= s
    ensures HoleLen(s) == |n| + 4 && s[2..HoleLen(s) - 2] == n
  {
    var b := Braced(n);
    assert forall i :: 0 <= i < |b| ==> s[i] == b[i];
    assert forall i :: 0 <= i < |n| ==> b[2 + i] == n[i] && s[2..][i] == n[i];
    assert b[2 + |n|] == '}' && b[3 + |n|] == '}';
    assert s[2..][|n|] == '}';
    var r := Run(s[2..]);
    assert r == |n|;
    assert s[2..2 + |n|] == n;
  }

  /** More text behind a string does not disturb a placeholder at its start. */
  lemma HoleStays(a: string, b: string)
    requires HoleLen(a) > 0
    ensures HoleLen(a + b) == HoleLen(a)
  {
    HoleHere(a);
    assert Braced(a[2..HoleLen(a) - 2]) <= a + b;
    HoleFound(a[2..HoleLen(a) - 2], a + b);
  }

  // ---------- Splitting into pieces ----------

  /** How much text precedes the leftmost placeholder. */
  function TextLen(s: string): (n: nat)
    ensures n <= |s| && (n == 0 <==> s == [] || HoleLen(s) > 0)
  {
    if s == [] || HoleLen(s) > 0 then 0 else 1 + TextLen(s[1..])
  }

  lemma {:induction false} TextLenSpec(s: string, i: nat)
    ensures i < TextLen(s) ==> HoleLen(s[i..]) == 0
    ensures TextLen(s) < |s| ==> HoleLen(s[TextLen(s)..]) > 0
    decreases |s|
  {
    hide HoleLen;
    if s != [] && HoleLen(s) == 0 {
      TextLenSpec(s[1..], if i > 0 then i - 1 else 0);
      assert i > 0 && i <= |s| ==> s[1..][i - 1..] == s[i..];
      assert s[1..][TextLen(s) - 1..] == s[TextLen(s)..];
      assert s[0..] == s;
    } else {
      assert s[0..] == s;
    }
  }

  lemma {:induction false} TextLenIs(s: string, k: nat)
    requires k <= |s| && (forall i :: 0 <= i < k ==> HoleLen(s[i..]) == 0) && (k < |s| ==> HoleLen(s[k..]) > 0)
    ensures TextLen(s) == k
    decreases |s|
  {
    assert s[0..] == s;
    if k > 0 {
      assert HoleLen(s[0..]) == 0;
      forall i | 0 <= i < k - 1 ensures HoleLen(s[1..][i..]) == 0 { assert s[1..][i..] == s[i + 1..]; }
      assert s[1..][k - 1..] == s[k..];
      TextLenIs(s[1..], k - 1);
    }
  }

  /** All the pieces of a string: its leftmost non-overlapping placeholders and the text
      between them. */
  function Pieces(s: string): seq<Piece>
    decreases |s|
  {
    if s == [] then []
    else if HoleLen(s) > 0 then [Hole(s[2..HoleLen(s) - 2])] + Pieces(s[HoleLen(s)..])
    else [Text(s[..TextLen(s)])] + Pieces(s[TextLen(s)..])
  }

  function PieceStr(p: Piece): string { if p.Text? then p.text else Braced(p.name) }

  /** `to_template_str`. */
  function Print(p: seq<Piece>): string {
    if p == [] then [] else PieceStr(p[0]) + Print(p[1..])
  }

  /** Nothing is lost in parsing. */
  lemma {:induction false} PrintPieces(s: string)
    ensures Print(Pieces(s)) == s
    decreases |s|
  {
    if s != [] {
      if HoleLen(s) > 0 {
        HoleHere(s);
        PrintPieces(s[HoleLen(s)..]);
        assert s == s[..HoleLen(s)] + s[HoleLen(s)..];
      } else {
        PrintPieces(s[TextLen(s)..]);
        assert s == s[..TextLen(s)] + s[TextLen(s)..];
      }
    }
  }

  /** No text piece hides a placeholder: none starts within it. */
  ghost predicate NoHoleIn(t: string, rest: string) {
    forall i :: 0 <= i < |t| ==> HoleLen((t + rest)[i..]) == 0
  }

  /** The piece lists that denote themselves: names are names, texts are nonempty, maximal
      and free of placeholders. */
  ghost predicate Canonical(p: seq<Piece>) {
    p == [] || (
      && Canonical(p[1..])
      && match p[0]
         case Hole(n) => IsName(n)
         case Text(t) => t != [] && (|p| > 1 ==> p[1].Hole?) && NoHoleIn(t, Print(p[1..])))
  }

  lemma TextThenHole(t: string, s: string)
    requires NoHoleIn(t, s) && t != [] && (s == [] || HoleLen(s) > 0)
    ensures HoleLen(t + s) == 0 && TextLen(t + s) == |t|
  {
    assert (t + s)[0..] == t + s;
    assert (t + s)[|t|..] == s;
    TextLenIs(t + s, |t|);
  }

  lemma {:induction false} StartsWithHole(p: seq<Piece>)
    requires Canonical(p) && p != [] && p[0].Hole?
    ensures HoleLen(Print(p)) == |p[0].name| + 4 && Print(p)[2..|p[0].name| + 2] == p[0].name
    ensures Print(p)[|p[0].name| + 4..] == Print(p[1..])
  {
    HoleFound(p[0].name, Print(p));
  }

  lemma {:induction false} CanonicalParses(p: seq<Piece>)
    requires Canonical(p)
    ensures Pieces(Print(p)) == p
  {
    hide HoleLen, TextLen, NoHoleIn, Braced;
    if p != [] {
      CanonicalParses(p[1..]);
      var s := Print(p);
      if p[0].Hole? {
        StartsWithHole(p);
      } else {
        var t := p[0].text;
        var rest := Print(p[1..]);
        if |p| > 1 { StartsWithHole(p[1..]); }
        TextThenHole(t, rest);
        assert s[..|t|] == t && s[|t|..] == rest;
      }
    }
  }

  lemma {:induction false} PiecesCanonical(s: string)
    ensures Canonical(Pieces(s))
    decreases |s|
  {
    hide HoleLen, TextLen, Print;
    if s != [] {
      if HoleLen(s) > 0 {
        HoleHere(s);
        PiecesCanonical(s[HoleLen(s)..]);
        assert Pieces(s)[1..] == Pieces(s[HoleLen(s)..]);
      } else {
        var n := TextLen(s);
        PiecesCanonical(s[n..]);
        PrintPieces(s[n..]);
        assert Pieces(s)[1..] == Pieces(s[n..]);
        assert s[..n] + s[n..] == s;
        forall i | 0 <= i < n ensures HoleLen(s[i..]) == 0 { TextLenSpec(s, i); }
        TextLenSpec(s, 0);
      }
    }
  }

  /** Parsing inverts printing exactly on the canonical lists, and a string has exactly one
      canonical list that prints as it. */
  lemma ParsesBackIff(p: seq<Piece>)
    ensures Pieces(Print(p)) == p <==> Canonical(p)
  {
    if Canonical(p) { CanonicalParses(p); }
    PiecesCanonical(Print(p));
  }

  lemma {:induction false} PrintPrefix(p: seq<Piece>, k: nat)
    requires k <= |p|
    ensures Print(p) == Print(p[..k]) + Print(p[k..])
  {
    if k > 0 {
      PrintPrefix(p[1..], k - 1);
      assert p[..k][1..] == p[1..][..k - 1] && p[1..][k - 1..] == p[k..];
    } else {
      assert p[0..] == p;
    }
  }

  lemma NoHoleInShorter(t: string, a: string, b: string)
    requires NoHoleIn(t, a + b)
    ensures NoHoleIn(t, a)
  {
    forall i | 0 <= i < |t| ensures HoleLen((t + a)[i..]) == 0 {
      assert (t + a)[i..] + b == (t + (a + b))[i..];
      if HoleLen((t + a)[i..]) > 0 { HoleStays((t + a)[i..], b); }
    }
  }

  /** Cutting pieces off the end leaves a list that still denotes itself: no shorter
      template reads differently. */
  lemma {:induction false} PrefixCanonical(p: seq<Piece>, k: nat)
    requires Canonical(p) && k <= |p|
    ensures Canonical(p[..k])
  {
    if k > 0 {
      PrefixCanonical(p[1..], k - 1);
      var q := p[..k];
      assert q[1..] == p[1..][..k - 1];
      if p[0].Text? {
        PrintPrefix(p[1..], k - 1);
        NoHoleInShorter(p[0].text, Print(q[1..]), Print(p[1..][k - 1..]));
      }
    }
  }

  /** Reading a template from the front: a braced name is a placeholder, ... */
  lemma HoleFirst(n: string, s: string)
    requires IsName(n)
    ensures Pieces("{{" + n + "}}" + s) == [Hole(n)] + Pieces(s)
  {
    hide HoleLen, TextLen;
    var all := "{{" + n + "}}" + s;
    assert all[..|n| + 4] == Braced(n);
    HoleFound(n, all);
    assert all[|n| + 4..] == s;
  }

  /** ... and text without a brace is a piece, at the end or in front of a braced name. */
  lemma TextWithoutBrace(t: string, s: string)
    requires t != [] && '{' !in t && (s == [] || HoleLen(s) > 0)
    ensures Pieces(t + s) == [Text(t)] + Pieces(s)
  {
    forall i | 0 <= i < |t| ensures HoleLen((t + s)[i..]) == 0 { assert (t + s)[i..][0] == t[i]; }
    assert (t + s)[|t|..] == s && (t + s)[..|t|] == t;
    TextLenIs(t + s, |t|);
  }

  // ---------- Numbering ----------

  datatype Chunk = Chunk(pos: nat, piece: Piece)

  function Numbered(p: seq<Piece>): seq<Chunk> { seq(|p|, i requires 0 <= i < |p| => Chunk(i, p[i])) }

  lemma PushNumbered(p: seq<Piece>, x: Piece)
    ensures Numbered(p) + [Chunk(|p|, x)] == Numbered(p + [x])
  {}

  // ---------- The frontend ----------

  datatype Rejection = Undefined | IndexError | Adjacent | UsedTwice

  datatype Parsed = Accepted(body: seq<Chunk>) | Rejected(why: Rejection)

  /** Parameters by name; the value says whether it is an output. */
  type Params = map<string, bool>

  predicate IsOutput(params: Params, p: Piece) {
    p.Hole? && p.name in params && params[p.name]
  }

  /** What is wrong with the i-th piece, judged against the pieces before it. */
  ghost function Fault(params: Params, p: seq<Piece>, i: nat): Option<Rejection>
    requires i < |p|
  {
    if p[i].Text? then None
    else if p[i].name !in params then Some(Undefined)
    else if !params[p[i].name] then None
    else if i == 0 then Some(IndexError)
    else if IsOutput(params, p[i - 1]) then Some(Adjacent)
    else if p[i] in p[..i] then Some(UsedTwice)
    else None
  }

  /** One past the last output location, 0 if there is none. */
  function AfterLastOutput(params: Params, p: seq<Piece>): (k: nat)
    ensures k <= |p| && (k > 0 ==> IsOutput(params, p[k - 1]))
    ensures forall i :: k <= i < |p| ==> !IsOutput(params, p[i])
    decreases |p|
  {
    if p == [] then 0
    else if IsOutput(params, p[|p| - 1]) then |p|
    else AfterLastOutput(params, p[..|p| - 1])
  }

  function FrontendBody(params: Params, s: string, removePureFill: bool): seq<Piece> {
    var p := Pieces(s);
    if removePureFill then p[..AfterLastOutput(params, p)] else p
  }

  /** The server's pieces: the trailing text is dropped when the flag is on. */
  function ServerBody(template: string, removePureFill: bool): seq<Piece> {
    var p := Pieces(template);
    if removePureFill && EndsInText(p) then p[..|p| - 1] else p
  }

  predicate EndsInText(p: seq<Piece>) { p != [] && p[|p| - 1].Text? }

  /** The round trip across the layers, for every body, every parameter list and every
      pair of flags: the server reads back exactly the frontend's pieces, unless it was
      told to drop a trailing text that the frontend was told to keep. */
  lemma RoundTrip(params: Params, s: string, front: bool, server: bool)
    ensures var p := FrontendBody(params, s, front);
            ServerBody(Print(p), server) == p <==> !(server && !front && EndsInText(p))
    ensures Print(FrontendBody(params, s, front)) <= s
    ensures !front ==> Print(FrontendBody(params, s, front)) == s
    ensures var p := FrontendBody(params, s, front);
            var all := Pieces(s);
            && p <= all
            && (front ==> forall i :: |p| <= i < |all| ==> !IsOutput(params, all[i]))
            && (front && p != [] ==> IsOutput(params, p[|p| - 1]))
  {
    var p := FrontendBody(params, s, front);
    var all := Pieces(s);
    PiecesCanonical(s);
    PrintPieces(s);
    if front {
      var k := AfterLastOutput(params, all);
      PrefixCanonical(all, k);
      PrintPrefix(all, k);
    }
    CanonicalParses(p);
  }

  /** Both sides send the same flag, so what the frontend parsed is what is served. */
  lemma SameFlagRoundTrip(params: Params, s: string, flag: bool)
    ensures var p := FrontendBody(params, s, flag);
            Numbered(ServerBody(Print(p), flag)) == Numbered(p)
  {
    RoundTrip(params, s, flag, flag);
  }

  // ---------- Splitting the prefix ----------

  function Renumber(b: seq<Chunk>): (r: seq<Chunk>) {
    seq(|b|, i requires 0 <= i < |b| => Chunk(b[i].pos + 1, b[i].piece))
  }

  function SplitPrefix(b: seq<Chunk>, k: int): Result<seq<Chunk>> {
    if b == [] || !b[0].piece.Text? || !(0 <= k < |b[0].piece.text|) then Raised
    else
      var t := b[0].piece.text;
      Ok([Chunk(b[0].pos, Text(t[..k])), Chunk(1, Text(t[k..]))] + Renumber(b[1..]))
  }

  function Body(b: seq<Chunk>): seq<Piece> { seq(|b|, i requires 0 <= i < |b| => b[i].piece) }

  lemma SplitPrints(t: string, k: nat, rest: seq<Piece>)
    requires k <= |t|
    ensures Print([Text(t[..k]), Text(t[k..])] + rest) == Print([Text(t)] + rest)
  {
    var q := [Text(t[..k]), Text(t[k..])] + rest;
    assert q[1..] == [Text(t[k..])] + rest && q[1..][1..] == rest && ([Text(t)] + rest)[1..] == rest;
    assert Print(q[1..]) == t[k..] + Print(rest);
    assert t[..k] + t[k..] == t;
    assert t[..k] + (t[k..] + Print(rest)) == (t[..k] + t[k..]) + Print(rest);
  }

  lemma SplitNumbers(p: seq<Piece>, k: int)
    requires p != [] && p[0].Text? && 0 <= k < |p[0].text|
    ensures SplitPrefix(Numbered(p), k) == Ok(Numbered([Text(p[0].text[..k]), Text(p[0].text[k..])] + p[1..]))
  {
    var q := [Text(p[0].text[..k]), Text(p[0].text[k..])] + p[1..];
    assert Renumber(Numbered(p)[1..]) == Numbered(q)[2..];
    assert Numbered(q)[..2] == [Chunk(0, Text(p[0].text[..k])), Chunk(1, Text(p[0].text[k..]))];
    assert Numbered(q) == Numbered(q)[..2] + Numbered(q)[2..];
  }

  /** A split keeps the rendered text and the numbering, and reading the split body back
      gives the body before the split. */
  lemma SplitKeeps(p: seq<Piece>, k: int)
    requires Canonical(p)
    ensures SplitPrefix(Numbered(p), k).Ok? <==> p != [] && p[0].Text? && 0 <= k < |p[0].text|
    ensures SplitPrefix(Numbered(p), k).Ok? ==>
              var b := SplitPrefix(Numbered(p), k).value;
              && b == Numbered(Body(b)) && |b| == |p| + 1
              && Print(Body(b)) == Print(p) && Pieces(Print(Body(b))) == p
              && b[0].piece.Text? && |b[0].piece.text| == k && b[1].piece.Text? && Body(b)[2..] == p[1..]
  {
    hide Print, Pieces, Canonical;
    if p != [] && p[0].Text? && 0 <= k < |p[0].text| {
      SplitNumbers(p, k);
      var q := [Text(p[0].text[..k]), Text(p[0].text[k..])] + p[1..];
      assert Body(Numbered(q)) == q;
      assert [Text(p[0].text)] + p[1..] == p;
      SplitPrints(p[0].text, k, p[1..]);
      CanonicalParses(p);
    }
  }

  // ---------- The parsers ----------

  /** The next match of `finditer` at or after a position: the scan of the expression. */
  method NextPlaceholder(s: string, from: nat) returns (start: nat, end: nat)
    requires from <= |s|
    ensures start == from + TextLen(s[from..])
    ensures start < |s| ==> end == start + HoleLen(s[start..]) && end > start
    ensures start == |s| ==> end == |s|
  {
    hide HoleLen, TextLen;
    start := from;
    assert s[from..][0..] == s[from..];
    while start < |s| && HoleLen(s[start..]) == 0
      invariant from <= start <= |s|
      invariant forall i :: from <= i < start ==> HoleLen(s[i..]) == 0
    {
      start := start + 1;
    }
    forall i | 0 <= i < start - from ensures HoleLen(s[from..][i..]) == 0 { assert s[from..][i..] == s[from + i..]; }
    assert s[from..][start - from..] == s[start..];
    TextLenIs(s[from..], start - from);
    end := if start < |s| then start + HoleLen(s[start..]) else |s|;
  }

  /** The piece or pieces that one match contributes. */
  lemma OneMatch(s: string, last: nat, start: nat, end: nat)
    requires last <= |s| && start == last + TextLen(s[last..]) && start < |s| && end == start + HoleLen(s[start..])
             && end > start
    ensures end <= |s|
    ensures Pieces(s[last..]) == (if s[last..start] != "" then [Text(s[last..start])] else [])
                                 + [Hole(s[start + 2..end - 2])] + Pieces(s[end..])
  {
    hide HoleLen, TextLen;
    var u, tail := s[last..], s[start..];
    assert tail[2..HoleLen(tail) - 2] == s[start + 2..end - 2] && tail[HoleLen(tail)..] == s[end..];
    assert Pieces(tail) == [Hole(s[start + 2..end - 2])] + Pieces(s[end..]);
    assert u[..start - last] == s[last..start] && u[start - last..] == tail;
    if start > last { TextFirst(u); }
  }

  lemma TextFirst(u: string)
    requires TextLen(u) > 0
    ensures Pieces(u) == [Text(u[..TextLen(u)])] + Pieces(u[TextLen(u)..])
  {}

  lemma NoMatch(s: string, last: nat)
    requires last <= |s| && last + TextLen(s[last..]) == |s|
    ensures Pieces(s[last..]) == if last < |s| then [Text(s[last..])] else []
  {
    if last < |s| {
      var u := s[last..];
      assert u[..|u|] == u && u[|u|..] == [];
    }
  }

  lemma FaultIsLocal(params: Params, p: seq<Piece>, q: seq<Piece>, i: nat)
    requires i < |p|
    ensures Fault(params, p + q, i) == Fault(params, p, i)
  {
    assert (p + q)[..i] == p[..i];
  }

  ghost predicate NoFaults(params: Params, p: seq<Piece>) {
    forall i :: 0 <= i < |p| ==> Fault(params, p, i) == None
  }

  /** A list has no fault if and only if every name in it is a parameter and no output comes
      first, stands next to another output, or comes twice. */
  lemma NoFaultsMeans(params: Params, p: seq<Piece>)
    ensures NoFaults(params, p) <==>
              && (forall i :: 0 <= i < |p| && p[i].Hole? ==> p[i].name in params)
              && (p != [] ==> !IsOutput(params, p[0]))
              && (forall i :: 0 < i < |p| ==> !(IsOutput(params, p[i - 1]) && IsOutput(params, p[i])))
              && (forall i, j :: 0 <= i < j < |p| && IsOutput(params, p[i]) ==> p[i] != p[j])
  {
    hide Fault;
    if NoFaults(params, p) {
      forall i | 0 <= i < |p| ensures p[i].Hole? ==> p[i].name in params { FaultAt(params, p, i); }
      if p != [] { FaultAt(params, p, 0); }
      forall i | 0 < i < |p| ensures !(IsOutput(params, p[i - 1]) && IsOutput(params, p[i])) { FaultAt(params, p, i); }
      forall i, j | 0 <= i < j < |p| && IsOutput(params, p[i]) ensures p[i] != p[j] {
        FaultAt(params, p, j);
        assert p[..j][i] == p[i];
      }
    } else {
      var i :| 0 <= i < |p| && Fault(params, p, i) != None;
      FaultAt(params, p, i);
    }
  }

  lemma FaultAt(params: Params, p: seq<Piece>, i: nat)
    requires i < |p|
    ensures Fault(params, p, i) == None <==>
              && (p[i].Hole? ==> p[i].name in params)
              && (IsOutput(params, p[i]) ==> i > 0 && !IsOutput(params, p[i - 1]) && p[i] !in p[..i])
  {}

  /** The first fault of a list, and nothing but the first, is reported. */
  ghost predicate FirstFault(params: Params, p: seq<Piece>, why: Rejection) {
    exists i ::
      && 0 <= i < |p| && Fault(params, p, i) == Some(why)
      && forall j :: 0 <= j < i ==> Fault(params, p, j) == None
  }

  lemma NoFaultsPush(params: Params, done: seq<Piece>, x: Piece)
    requires NoFaults(params, done) && Fault(params, done + [x], |done|) == None
    ensures NoFaults(params, done + [x])
  {
    forall i | 0 <= i < |done + [x]| ensures Fault(params, done + [x], i) == None {
      if i < |done| { FaultIsLocal(params, done, [x], i); }
    }
  }

  lemma FaultFound(params: Params, done: seq<Piece>, x: Piece, rest: seq<Piece>, why: Rejection)
    requires NoFaults(params, done) && Fault(params, done + [x], |done|) == Some(why)
    ensures FirstFault(params, done + [x] + rest, why) && !NoFaults(params, done + [x] + rest)
  {
    var p := done + [x] + rest;
    FaultIsLocal(params, done + [x], rest, |done|);
    forall j | 0 <= j < |done| ensures Fault(params, p, j) == None {
      FaultIsLocal(params, done, [x] + rest, j);
      assert done + ([x] + rest) == p;
    }
  }

  lemma LastOutputPush(params: Params, done: seq<Piece>, x: Piece)
    ensures AfterLastOutput(params, done + [x]) ==
            if IsOutput(params, x) then |done| + 1 else AfterLastOutput(params, done)
  {
    assert (done + [x])[..|done|] == done;
  }

  /** The set `outputs` of names seen so far. */
  ghost predicate Seen(params: Params, done: seq<Piece>, outputs: set<string>) {
    forall n :: n in outputs <==> IsOutput(params, Hole(n)) && Hole(n) in done
  }

  /** The assertions on one match, against what has been pushed so far. */
  method CheckPlaceholder(ret: seq<Chunk>, ghost done: seq<Piece>, params: Params, outputs: set<string>, name: string)
    returns (why: Option<Rejection>)
    requires ret == Numbered(done) && Seen(params, done, outputs)
    ensures why == Fault(params, done + [Hole(name)], |done|)
    ensures why == None ==>
              name in params && Seen(params, done + [Hole(name)], if params[name] then outputs + {name} else outputs)
  {
    ghost var p := done + [Hole(name)];
    assert p[..|done|] == done;
    if name !in params { return Some(Undefined); }
    if params[name] {
      if ret == [] { return Some(IndexError); }
      var top := ret[|ret| - 1].piece;
      assert top == p[|done| - 1];
      if top.Hole? && top.name in params && params[top.name] { return Some(Adjacent); }
      if name in outputs { return Some(UsedTwice); }
    }
    return None;
  }

  lemma TextIsFine(params: Params, done: seq<Piece>, t: string, outputs: set<string>)
    requires NoFaults(params, done) && Seen(params, done, outputs)
    ensures NoFaults(params, done + [Text(t)]) && Seen(params, done + [Text(t)], outputs)
    ensures AfterLastOutput(params, done + [Text(t)]) == AfterLastOutput(params, done)
  {
    NoFaultsPush(params, done, Text(t));
    LastOutputPush(params, done, Text(t));
  }

  /** `parse_func_body`: accepts exactly the bodies without a fault, reports the first
      fault otherwise, and numbers the pieces it keeps by their index. */
  method ParseFuncBody(s: string, params: Params, removePureFill: bool) returns (r: Parsed)
    ensures r.Accepted? <==> NoFaults(params, Pieces(s))
    ensures r.Accepted? ==> r.body == Numbered(FrontendBody(params, s, removePureFill))
    ensures r.Rejected? ==> FirstFault(params, Pieces(s), r.why)
  {
    hide HoleLen, TextLen, Pieces, AfterLastOutput, Fault, NoFaults, FirstFault, Seen;
    var ret: seq<Chunk> := [];
    var last, lastOutput := 0, 0;
    var outputs: set<string> := {};
    ghost var done: seq<Piece> := [];
    assert s[0..] == s;
    NothingOutput(params);
    var start, end := NextPlaceholder(s, 0);
    while start < |s|
      invariant last <= |s| && start == last + TextLen(s[last..])
      invariant start < |s| ==> end == start + HoleLen(s[start..]) && end > start
      invariant ret == Numbered(done) && done + Pieces(s[last..]) == Pieces(s)
      invariant NoFaults(params, done) && Seen(params, done, outputs)
      invariant lastOutput == AfterLastOutput(params, done)
      decreases |s| - last
    {
      OneMatch(s, last, start, end);
      var chunk := s[last..start];
      if chunk != "" {
        TextIsFine(params, done, chunk, outputs);
        ret := Push(ret, done, Text(chunk));
        done := done + [Text(chunk)];
      }
      var name := s[start + 2..end - 2];
      assert Pieces(s) == done + [Hole(name)] + Pieces(s[end..]);
      var why := CheckPlaceholder(ret, done, params, outputs, name);
      if why.Some? {
        FaultFound(params, done, Hole(name), Pieces(s[end..]), why.value);
        return Rejected(why.value);
      }
      NoFaultsPush(params, done, Hole(name));
      LastOutputPush(params, done, Hole(name));
      ret := Push(ret, done, Hole(name));
      done := done + [Hole(name)];
      if params[name] { outputs, lastOutput := outputs + {name}, |ret|; }
      last := end;
      start, end := NextPlaceholder(s, last);
    }
    NoMatch(s, last);
    if last < |s| { TextIsFine(params, done, s[last..], outputs); }
    assert Pieces(s) == if last < |s| then done + [Text(s[last..])] else done;
    if removePureFill {
      ret := ret[..lastOutput];
      PrunedSame(params, done, Pieces(s[last..]), lastOutput);
    } else if last < |s| {
      ret := Push(ret, done, Text(s[last..]));
      done := done + [Text(s[last..])];
    }
    return Accepted(ret);
  }

  lemma NothingOutput(params: Params)
    ensures AfterLastOutput(params, []) == 0 && NoFaults(params, []) && Seen(params, [], {})
  {}

  lemma PrunedSame(params: Params, done: seq<Piece>, tail: seq<Piece>, k: nat)
    requires k == AfterLastOutput(params, done) && k == AfterLastOutput(params, done + tail)
    ensures Numbered(done)[..k] == Numbered((done + tail)[..k])
  {}

  /** `push_to_body` and `push_chunk`: a new piece takes the next number. */
  method Push(body: seq<Chunk>, ghost p: seq<Piece>, x: Piece) returns (r: seq<Chunk>)
    requires body == Numbered(p)
    ensures r == Numbered(p + [x])
  {
    r := body + [Chunk(|body|, x)];
    PushNumbered(p, x);
  }

  class ChunkedRequest {
    var body: seq<Chunk>

    constructor ()
      ensures body == []
    {
      body := [];
    }

    /** The body of `parse_from_payload`: every placeholder is accepted here. */
    method ParseBody(template: string, removePureFill: bool)
      requires body == []
      modifies this
      ensures body == Numbered(ServerBody(template, removePureFill))
    {
      hide HoleLen, TextLen, Pieces;
      var last := 0;
      ghost var done: seq<Piece> := [];
      assert template[0..] == template;
      var start, end := NextPlaceholder(template, 0);
      while start < |template|
        invariant last <= |template| && start == last + TextLen(template[last..])
        invariant start < |template| ==> end == start + HoleLen(template[start..]) && end > start
        invariant body == Numbered(done) && done + Pieces(template[last..]) == Pieces(template)
        invariant done != [] ==> done[|done| - 1].Hole?
        decreases |template| - last
      {
        OneMatch(template, last, start, end);
        var prev := template[last..start];
        if prev != "" {
          body := Push(body, done, Text(prev));
          done := done + [Text(prev)];
        }
        body := Push(body, done, Hole(template[start + 2..end - 2]));
        done := done + [Hole(template[start + 2..end - 2])];
        last := end;
        start, end := NextPlaceholder(template, last);
      }
      NoMatch(template, last);
      var rest := template[last..];
      assert rest == "" ==> Pieces(template) == done;
      assert rest != "" ==> Pieces(template) == done + [Text(rest)];
      assert (done + [Text(rest)])[..|done|] == done;
      if !removePureFill && rest != "" {
        body := Push(body, done, Text(rest));
        done := done + [Text(rest)];
      }
    }

    /** `split_prefix_chunk`: the first chunk is cut in place, the rest is inserted after
        it and every later number moves up by one. */
    method SplitPrefixChunk(k: int) returns (ok: bool)
      modifies this
      ensures ok == SplitPrefix(old(body), k).Ok?
      ensures body == if ok then SplitPrefix(old(body), k).value else old(body)
    {
      if body == [] || !body[0].piece.Text? { return false; }
      var text := body[0].piece.text;
      if !(0 <= k < |text|) { return false; }
      ghost var want := SplitPrefix(body, k).value;
      body := body[0 := Chunk(body[0].pos, Text(text[..k]))];
      body := body[..1] + [Chunk(1, Text(text[k..]))] + body[1..];
      ghost var b := body;
      for i := 2 to |body|
        invariant |body| == |b| && body[..i] == want[..i] && body[i..] == b[i..]
      {
        assert body[i] == b[i..][0] && want[i] == Chunk(b[i].pos + 1, b[i].piece);
        body := body[i := Chunk(body[i].pos + 1, body[i].piece)];
        assert body[..i + 1] == want[..i] + [want[i]];
      }
      return true;
    }
  }
}
