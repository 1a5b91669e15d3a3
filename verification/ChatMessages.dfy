/** Chat messages of a forked text context (`parrot/engine/context/text_context.py`). */
module ChatMessages {

  datatype Role = User | Assistant

  datatype Message = Message(role: Role, content: string)

  // ---------- Merging ----------

  function Push(acc: seq<Message>, m: Message): seq<Message> {
    var n := |acc| - 1;
    if acc != [] && acc[n].role == m.role then acc[..n] + [Message(m.role, acc[n].content + m.content)] else acc + [m]
  }

  /** Pushing the messages one by one onto a merged list. */
  function MergeOnto(acc: seq<Message>, ms: seq<Message>): seq<Message>
    decreases |ms|
  {
    if ms == [] then acc else MergeOnto(Push(acc, ms[0]), ms[1..])
  }

  function Merge(ms: seq<Message>): seq<Message> { MergeOnto([], ms) }

  ghost predicate Alternating(ms: seq<Message>) {
    forall i :: 0 < i < |ms| ==> ms[i - 1].role != ms[i].role
  }

  function Text(ms: seq<Message>): string {
    if ms == [] then "" else ms[0].content + Text(ms[1..])
  }

  /** Every character with the role that said it. */
  ghost function Said(ms: seq<Message>): seq<(Role, char)> {
    if ms == [] then [] else Voice(ms[0]) + Said(ms[1..])
  }

  ghost function Voice(m: Message): seq<(Role, char)> {
    seq(|m.content|, i requires 0 <= i < |m.content| => (m.role, m.content[i]))
  }

  lemma {:induction false} SaidConcat(a: seq<Message>, b: seq<Message>)
    ensures Said(a + b) == Said(a) + Said(b)
  {
    hide Voice;
    if a == [] {
      assert a + b == b;
    } else {
      SaidConcat(a[1..], b);
      assert (a + b)[1..] == a[1..] + b && (a + b)[0] == a[0];
      assert Voice(a[0]) + (Said(a[1..]) + Said(b)) == Voice(a[0]) + Said(a[1..]) + Said(b);
    }
  }

  lemma PushSaid(acc: seq<Message>, m: Message)
    ensures Said(Push(acc, m)) == Said(acc) + Voice(m)
  {
    var n := |acc| - 1;
    assert Said([m]) == Voice(m);
    if acc != [] && acc[n].role == m.role {
      var x := Message(m.role, acc[n].content + m.content);
      assert Voice(x) == Voice(acc[n]) + Voice(m);
      assert acc == acc[..n] + [acc[n]];
      SaidConcat(acc[..n], [acc[n]]);
      SaidConcat(acc[..n], [x]);
      assert Said([x]) == Voice(x) && Said([acc[n]]) == Voice(acc[n]);
    } else {
      SaidConcat(acc, [m]);
    }
  }

  lemma {:induction false} MergeOntoSpec(acc: seq<Message>, ms: seq<Message>)
    requires Alternating(acc)
    ensures Alternating(MergeOnto(acc, ms)) && Said(MergeOnto(acc, ms)) == Said(acc) + Said(ms)
    decreases |ms|
  {
    if ms != [] {
      PushSaid(acc, ms[0]);
      MergeOntoSpec(Push(acc, ms[0]), ms[1..]);
    }
  }

  /** No two adjacent messages have the same role, and every character is still said by
      the same role, in the same order. */
  lemma MergeSpec(ms: seq<Message>)
    ensures Alternating(Merge(ms)) && Said(Merge(ms)) == Said(ms)
  {
    MergeOntoSpec([], ms);
  }

  ghost predicate NoneEmpty(ms: seq<Message>) { forall i :: 0 <= i < |ms| ==> ms[i].content != "" }

  lemma {:induction false} MergeOntoNonEmpty(acc: seq<Message>, ms: seq<Message>)
    requires NoneEmpty(acc) && NoneEmpty(ms)
    ensures NoneEmpty(MergeOnto(acc, ms))
    decreases |ms|
  {
    if ms != [] { MergeOntoNonEmpty(Push(acc, ms[0]), ms[1..]); }
  }

  /** Where the first voice ends. */
  lemma FirstVoice(a: seq<Message>)
    requires a != [] && Alternating(a) && NoneEmpty(a)
    ensures var n := |a[0].content|;
            && |Said(a)| >= n && Said(a)[..n] == Voice(a[0]) && Said(a)[n..] == Said(a[1..])
            && (forall i :: 0 <= i < n ==> Said(a)[i].0 == a[0].role)
            && (|Said(a)| > n ==> Said(a)[n].0 != a[0].role)
            && (|Said(a)| == n <==> |a| == 1)
  {
    if |a| > 1 {
      assert Said(a[1..]) == Voice(a[1]) + Said(a[1..][1..]);
      assert Said(a[1..])[0] == Voice(a[1])[0] == (a[1].role, a[1].content[0]);
    }
  }

  lemma SameFirst(a: seq<Message>, b: seq<Message>)
    requires a != [] && Alternating(a) && NoneEmpty(a)
    requires b != [] && Alternating(b) && NoneEmpty(b)
    requires Said(a) == Said(b)
    ensures |a[0].content| <= |b[0].content| && a[0].role == b[0].role
  {
    FirstVoice(a);
    FirstVoice(b);
    assert Said(a)[0] == Said(b)[0];
  }

  /** The merged list is the only alternating list of nonempty messages that says the
      same. */
  lemma {:induction false} Determined(a: seq<Message>, b: seq<Message>)
    requires Alternating(a) && NoneEmpty(a) && Alternating(b) && NoneEmpty(b) && Said(a) == Said(b)
    ensures a == b
    decreases |a|
  {
    if a != [] {
      assert Said(a)[0] == Voice(a[0])[0];
      assert b != [];
      SameFirst(a, b);
      SameFirst(b, a);
      FirstVoice(a);
      FirstVoice(b);
      forall i | 0 <= i < |a[0].content| ensures a[0].content[i] == b[0].content[i] {
        assert Voice(a[0])[i] == Voice(b[0])[i];
      }
      assert a[0].content == b[0].content;
      Determined(a[1..], b[1..]);
      assert a == [a[0]] + a[1..] && b == [b[0]] + b[1..];
    } else if b != [] {
      FirstVoice(b);
    }
  }

  lemma MergeDetermined(ms: seq<Message>, other: seq<Message>)
    requires NoneEmpty(ms) && Alternating(other) && NoneEmpty(other) && Said(other) == Said(ms)
    ensures other == Merge(ms)
  {
    MergeSpec(ms);
    MergeOntoNonEmpty([], ms);
    Determined(other, Merge(ms));
  }

  // ---------- Run by run ----------

  ghost predicate OneRole(ms: seq<Message>, role: Role) { forall i :: 0 <= i < |ms| ==> ms[i].role == role }

  lemma PushOne(x: Message, m: Message)
    ensures x.role == m.role ==> Push([x], m) == [Message(x.role, x.content + m.content)]
    ensures x.role != m.role ==> Push([x], m) == [x] + [m]
  {
    assert [x][..0] == [];
  }

  lemma PushBehind(acc: seq<Message>, x: Message, m: Message)
    ensures x.role == m.role ==> Push(acc + [x], m) == acc + [Message(x.role, x.content + m.content)]
    ensures x.role != m.role ==> Push(acc + [x], m) == acc + [x] + [m]
  {
    var all := acc + [x];
    assert all[..|all| - 1] == acc;
  }

  lemma {:induction false} RunJoins(x: Message, ms: seq<Message>)
    requires OneRole(ms, x.role)
    ensures MergeOnto([x], ms) == [Message(x.role, x.content + Text(ms))]
    decreases |ms|
  {
    hide Push;
    if ms == [] {
      assert x.content + "" == x.content;
    } else {
      var y := Message(x.role, x.content + ms[0].content);
      PushOne(x, ms[0]);
      RunJoins(y, ms[1..]);
      assert x.content + ms[0].content + Text(ms[1..]) == x.content + (ms[0].content + Text(ms[1..]));
    }
  }

  /** Only the last merged message matters to what follows. */
  lemma {:induction false} MergeBehind(acc: seq<Message>, x: Message, ms: seq<Message>)
    ensures MergeOnto(acc + [x], ms) == acc + MergeOnto([x], ms)
    decreases |ms|
  {
    hide Push;
    if ms != [] {
      PushOne(x, ms[0]);
      PushBehind(acc, x, ms[0]);
      if x.role == ms[0].role {
        MergeBehind(acc, Message(x.role, x.content + ms[0].content), ms[1..]);
      } else {
        MergeBehind(acc + [x], ms[0], ms[1..]);
        MergeBehind([x], ms[0], ms[1..]);
        var tail := MergeOnto([ms[0]], ms[1..]);
        assert (acc + [x]) + tail == acc + ([x] + tail);
      }
    }
  }

  /** Merging run by run: a run of one role, empty messages included, becomes one message with
      all its text, and what follows with the other role is merged on its own. */
  lemma MergeRuns(run: seq<Message>, rest: seq<Message>, role: Role)
    requires run != [] && OneRole(run, role) && (rest != [] ==> rest[0].role != role)
    ensures Merge(run + rest) == [Message(role, Text(run))] + Merge(rest)
  {
    MergeOntoConcat([], run, rest);
    assert Push([], run[0]) == [run[0]];
    RunJoins(run[0], run[1..]);
    var x := Message(role, Text(run));
    assert MergeOnto([], run) == [x];
    if rest != [] {
      PushOne(x, rest[0]);
      assert Push([], rest[0]) == [rest[0]];
      MergeBehind([x], rest[0], rest[1..]);
    }
  }

  // ---------- Level by level ----------

  lemma {:induction false} MergeOntoConcat(acc: seq<Message>, a: seq<Message>, b: seq<Message>)
    ensures MergeOnto(acc, a + b) == MergeOnto(MergeOnto(acc, a), b)
    decreases |a|
  {
    if a == [] {
      assert a + b == b;
    } else {
      MergeOntoConcat(Push(acc, a[0]), a[1..], b);
      assert (a + b)[1..] == a[1..] + b;
    }
  }

  /** Pushing an alternating list changes nothing in it. */
  lemma {:induction false} AlternatingStays(acc: seq<Message>, ms: seq<Message>)
    requires Alternating(acc + ms)
    ensures MergeOnto(acc, ms) == acc + ms
    decreases |ms|
  {
    if ms == [] {
      assert acc + ms == acc;
    } else {
      assert (acc + ms)[|acc|] == ms[0];
      assert acc != [] ==> (acc + ms)[|acc| - 1] == acc[|acc| - 1];
      assert Push(acc, ms[0]) == acc + [ms[0]];
      assert acc + [ms[0]] + ms[1..] == acc + ms;
      AlternatingStays(acc + [ms[0]], ms[1..]);
    }
  }

  /** Merging what is already merged together with more is merging everything at once. */
  lemma MergeAgain(a: seq<Message>, b: seq<Message>)
    ensures Merge(Merge(a) + b) == Merge(a + b)
  {
    MergeSpec(a);
    assert [] + Merge(a) == Merge(a);
    AlternatingStays([], Merge(a));
    MergeOntoConcat([], Merge(a), b);
    MergeOntoConcat([], a, b);
  }

  /** All chunks of a root-to-leaf list of contexts, in order. */
  ghost function Flat(levels: seq<seq<Message>>): seq<Message>
    decreases |levels|
  {
    if levels == [] then [] else Flat(levels[..|levels| - 1]) + levels[|levels| - 1]
  }

  /** What the recursion computes: each level is merged onto its parent's messages. */
  ghost function Chat(levels: seq<seq<Message>>): seq<Message>
    decreases |levels|
  {
    if levels == [] then [] else Merge(Chat(levels[..|levels| - 1]) + levels[|levels| - 1])
  }

  ghost function WholeText(levels: seq<seq<Message>>): string
    decreases |levels|
  {
    if levels == [] then "" else WholeText(levels[..|levels| - 1]) + Text(levels[|levels| - 1])
  }

  ghost function Chars(v: seq<(Role, char)>): string { seq(|v|, i requires 0 <= i < |v| => v[i].1) }

  lemma {:induction false} TextIsSaid(ms: seq<Message>)
    ensures Text(ms) == Chars(Said(ms))
  {
    if ms != [] {
      TextIsSaid(ms[1..]);
      assert Chars(Voice(ms[0]) + Said(ms[1..])) == Chars(Voice(ms[0])) + Chars(Said(ms[1..]));
      assert Chars(Voice(ms[0])) == ms[0].content;
    }
  }

  lemma {:induction false} TextConcat(a: seq<Message>, b: seq<Message>)
    ensures Text(a + b) == Text(a) + Text(b)
  {
    if a == [] {
      assert a + b == b;
    } else {
      TextConcat(a[1..], b);
      assert (a + b)[1..] == a[1..] + b;
      assert a[0].content + (Text(a[1..]) + Text(b)) == a[0].content + Text(a[1..]) + Text(b);
    }
  }

  lemma {:induction false} WholeTextIsFlat(levels: seq<seq<Message>>)
    ensures WholeText(levels) == Text(Flat(levels))
    decreases |levels|
  {
    hide Text;
    if levels != [] {
      WholeTextIsFlat(levels[..|levels| - 1]);
      TextConcat(Flat(levels[..|levels| - 1]), levels[|levels| - 1]);
    } else {
      NoText();
    }
  }

  lemma NoText()
    ensures Text([]) == ""
  {}

  lemma {:induction false} ChatIsFlat(levels: seq<seq<Message>>)
    ensures Chat(levels) == Merge(Flat(levels))
    decreases |levels|
  {
    if levels != [] {
      ChatIsFlat(levels[..|levels| - 1]);
      MergeAgain(Flat(levels[..|levels| - 1]), levels[|levels| - 1]);
    }
  }

  /** Level by level up the tree: the messages are the flat list merged once, alternate,
      keep every character with its speaker, and concatenate to the whole context text. */
  lemma ChatSpec(levels: seq<seq<Message>>)
    ensures Chat(levels) == Merge(Flat(levels)) && Alternating(Chat(levels))
    ensures Said(Chat(levels)) == Said(Flat(levels)) && Text(Chat(levels)) == WholeText(levels)
  {
    ChatIsFlat(levels);
    MergeSpec(Flat(levels));
    WholeTextIsFlat(levels);
    TextIsSaid(Chat(levels));
    TextIsSaid(Flat(levels));
  }

  // ---------- The contexts ----------

  lemma {:induction false} MergeOntoLast(acc: seq<Message>, ms: seq<Message>, m: Message)
    ensures MergeOnto(acc, ms + [m]) == Push(MergeOnto(acc, ms), m)
  {
    MergeOntoConcat(acc, ms, [m]);
    assert MergeOnto(MergeOnto(acc, ms), [m]) == MergeOnto(Push(MergeOnto(acc, ms), m), [m][1..]);
  }

  lemma MergeNothing()
    ensures Merge([]) == []
  {}

  lemma PushIs(acc: seq<Message>, m: Message)
    ensures var n := |acc| - 1;
            Push(acc, m) ==
              if acc != [] && acc[n].role == m.role
              then acc[n := Message(acc[n].role, acc[n].content + m.content)]
              else acc + [m]
  {}

  /** The merging loop. */
  method MergeMessages(ms: seq<Message>) returns (merged: seq<Message>)
    ensures merged == Merge(ms)
  {
    hide Push, MergeOnto;
    MergeNothing();
    assert ms[..0] == [];
    merged := [];
    for i := 0 to |ms|
      invariant merged == Merge(ms[..i])
    {
      var n := |merged| - 1;
      assert ms[..i + 1] == ms[..i] + [ms[i]];
      MergeOntoLast([], ms[..i], ms[i]);
      PushIs(merged, ms[i]);
      if |merged| > 0 && merged[n].role == ms[i].role {
        merged := merged[n := Message(merged[n].role, merged[n].content + ms[i].content)];
      } else {
        merged := merged + [ms[i]];
      }
    }
    assert ms[..|ms|] == ms;
  }

  lemma LevelsEnd(levels: seq<seq<Message>>, own: seq<Message>)
    ensures Chat(levels + [own]) == Merge(Chat(levels) + own)
    ensures WholeText(levels + [own]) == WholeText(levels) + Text(own)
  {
    assert (levels + [own])[..|levels|] == levels;
  }

  lemma NoLevels()
    ensures Chat([]) == []
  {}

  class TextContext {
    const parent: TextContext?
    ghost const path: set<TextContext>
    var chunks: seq<Message>

    ghost predicate Valid()
      reads this, path
      decreases path
    {
      && this in path
      && (parent == null ==> path == {this})
      && (parent != null ==> parent in path && this !in parent.path && path == parent.path + {this} && parent.Valid())
    }

    /** The chunks of every context from the root to this one. */
    ghost function Levels(): seq<seq<Message>>
      requires Valid()
      reads this, path
      decreases path
    {
      (if parent == null then [] else parent.Levels()) + [chunks]
    }

    constructor (parentContext: TextContext?)
      requires parentContext != null ==> parentContext.Valid()
      ensures Valid() && parent == parentContext && chunks == []
      ensures Levels() == (if parent == null then [] else parent.Levels()) + [[]]
    {
      parent := parentContext;
      path := (if parentContext == null then {} else parentContext.path) + {this};
      chunks := [];
    }

    method AppendText(content: string, roleIsUser: bool)
      requires Valid()
      modifies this
      ensures Valid()
      ensures Levels() == old(Levels())[..|old(Levels())| - 1]
                          + [old(chunks) + [Message(if roleIsUser then User else Assistant, content)]]
    {
      chunks := chunks + [Message(if roleIsUser then User else Assistant, content)];
    }

    /** `get_whole_context_text`. */
    function WholeContextText(): (r: string)
      requires Valid()
      reads this, path
      ensures r == WholeText(Levels())
      decreases path
    {
      LevelsEnd(if parent == null then [] else parent.Levels(), chunks);
      (if parent == null then "" else parent.WholeContextText()) + Text(chunks)
    }

    /** `get_whole_chat_messages`. */
    method WholeChatMessages() returns (messages: seq<Message>)
      requires Valid()
      ensures messages == Chat(Levels())
      ensures messages == Merge(Flat(Levels())) && Alternating(messages) && Text(messages) == WholeContextText()
      decreases path
    {
      hide Chat, Merge, WholeText, Flat, Alternating, Text;
      messages := chunks;
      if parent != null {
        var above := parent.WholeChatMessages();
        messages := above + messages;
      }
      LevelsEnd(if parent == null then [] else parent.Levels(), chunks);
      NoLevels();
      assert [] + chunks == chunks;
      messages := MergeMessages(messages);
      ChatSpec(Levels());
    }
  }
}
