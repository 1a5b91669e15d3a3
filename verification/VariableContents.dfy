/** Semantic variables are written once (`parrot/serve/graph/semantic_variable.py`): what a
    variable holds after a run is the text of the step that wrote it first. */
module VariableContents {
  import opened Wrappers
  import opened ServeContexts
  import opened Execution

  /** The step completes the Generate of a task whose output variable v is not written yet. */
  ghost predicate Generates(r: System, st: Step, v: VarId, text: string) {
    && st.Complete? && st.output == text && Enabled(r, st)
    && r.holds[st.t].chain.gen == v && r.execs[st.t].next == |r.holds[st.t].chain.fills|
    && v !in r.contents
  }

  /** Step i of the run writes the text: a client sets the variable, or a Generate for it
      succeeds. */
  ghost predicate WritesAt(s0: System, steps: seq<Step>, i: nat, v: VarId, text: string) {
    && i < |steps|
    && (steps[i] == SetVar(v, text) || exists r :: Runs(s0, steps[..i], r) && Generates(r, steps[i], v, text))
  }

  ghost predicate Written(s0: System, steps: seq<Step>, v: VarId, text: string) {
    exists i: nat :: WritesAt(s0, steps, i, v, text)
  }

  lemma {:induction false} RunsAgree(s0: System, steps: seq<Step>, a: System, b: System)
    requires Runs(s0, steps, a) && Runs(s0, steps, b)
    ensures a == b
    decreases |steps|
  {
    hide Apply, Enabled;
    if steps != [] {
      var k := |steps| - 1;
      var last := steps[k];
      var p :| Runs(s0, steps[..k], p) && Enabled(p, last) && Apply(p, last) == Ok(a);
      var q :| Runs(s0, steps[..k], q) && Enabled(q, last) && Apply(q, last) == Ok(b);
      RunsAgree(s0, steps[..k], p, q);
    }
  }

  lemma WrittenBefore(s0: System, steps: seq<Step>, k: nat, v: VarId, text: string)
    requires |steps| == k + 1
    ensures Written(s0, steps, v, text) <==> Written(s0, steps[..k], v, text) || WritesAt(s0, steps, k, v, text)
  {
    hide Runs, Generates;
    var p := steps[..k];
    forall i: nat | i < k ensures WritesAt(s0, p, i, v, text) <==> WritesAt(s0, steps, i, v, text) {
      assert p[..i] == steps[..i];
    }
    if i: nat :| WritesAt(s0, steps, i, v, text) {
      assert i < k ==> WritesAt(s0, p, i, v, text);
    }
    if i: nat :| WritesAt(s0, p, i, v, text) { assert WritesAt(s0, steps, i, v, text); }
  }

  lemma WritesLast(s0: System, steps: seq<Step>, k: nat, r: System, v: VarId, text: string)
    requires |steps| == k + 1 && Runs(s0, steps[..k], r)
    ensures WritesAt(s0, steps, k, v, text) <==> steps[k] == SetVar(v, text) || Generates(r, steps[k], v, text)
  {
    hide Runs, Generates;
    if q :| Runs(s0, steps[..k], q) && Generates(q, steps[k], v, text) { RunsAgree(s0, steps[..k], q, r); }
  }

  /** What one step does to the contents. */
  lemma StepContents(r: System, st: Step, s: System, v: VarId, text: string)
    requires ExecsInv(r) && Enabled(r, st) && Apply(r, st) == Ok(s)
    ensures v in s.contents && s.contents[v] == text <==>
              (v in r.contents && r.contents[v] == text) || st == SetVar(v, text) || Generates(r, st, v, text)
  {
    hide BindTask, FreeHeld, Expire, RemoteBind;
    if st.Complete? { assert ExecOk(r, st.t); }
  }

  /** Over every run: a variable holds a text if and only if some step of the run wrote that
      very text to it, and it was the first to write the variable. */
  lemma {:induction false} ContentsWritten(engines: set<nat>, steps: seq<Step>, s: System, v: VarId, text: string)
    requires Runs(Init(engines), steps, s)
    ensures v in s.contents && s.contents[v] == text <==> Written(Init(engines), steps, v, text)
    decreases |steps|
  {
    hide Apply, Enabled, Generates, Written, WritesAt;
    if steps == [] {
      NothingWritten(engines, v, text);
    } else {
      var k := |steps| - 1;
      var r :| Runs(Init(engines), steps[..k], r) && Enabled(r, steps[k]) && Apply(r, steps[k]) == Ok(s);
      ContentsWritten(engines, steps[..k], r, v, text);
      WrittenBefore(Init(engines), steps, k, v, text);
      WritesLast(Init(engines), steps, k, r, v, text);
      RunsKeep(engines, steps[..k], r);
      StepContents(r, steps[k], s, v, text);
    }
  }

  lemma NothingWritten(engines: set<nat>, v: VarId, text: string)
    ensures v !in Init(engines).contents && !Written(Init(engines), [], v, text)
  {}

  /** A run writes a variable at one step only. */
  lemma WrittenOnce(engines: set<nat>, steps: seq<Step>, s: System, i: nat, j: nat, v: VarId, x: string, y: string)
    requires Runs(Init(engines), steps, s)
    requires WritesAt(Init(engines), steps, i, v, x) && WritesAt(Init(engines), steps, j, v, y)
    ensures i == j && x == y
  {
    hide Runs, Enabled, Apply, Generates;
    if i < j { NotAgain(engines, steps, s, i, j, v, x, y); }
    if j < i { NotAgain(engines, steps, s, j, i, v, y, x); }
    if i == j {
      ContentsWritten(engines, steps, s, v, x);
      ContentsWritten(engines, steps, s, v, y);
    }
  }

  /** A step that writes a variable does not find it written. */
  lemma NotAgain(engines: set<nat>, steps: seq<Step>, s: System, i: nat, j: nat, v: VarId, x: string, y: string)
    requires Runs(Init(engines), steps, s) && i < j < |steps| && WritesAt(Init(engines), steps, i, v, x)
    ensures !WritesAt(Init(engines), steps, j, v, y)
  {
    hide Enabled, Apply, WritesAt, Runs;
    var r := RunsPrefix(Init(engines), steps, s, j);
    EarlierWrite(Init(engines), steps, i, j, v, x);
    ContentsWritten(engines, steps[..j], r, v, x);
    WriteFindsNone(Init(engines), steps, j, r, v, y);
  }

  lemma {:induction false} RunsPrefix(s0: System, steps: seq<Step>, s: System, j: nat) returns (r: System)
    requires Runs(s0, steps, s) && j < |steps|
    ensures Runs(s0, steps[..j], r) && Enabled(r, steps[j]) && Apply(r, steps[j]).Ok?
    decreases |steps|
  {
    hide Enabled, Apply;
    var k := |steps| - 1;
    r :| Runs(s0, steps[..k], r) && Enabled(r, steps[k]) && Apply(r, steps[k]) == Ok(s);
    if j < k {
      assert steps[..k][..j] == steps[..j];
      r := RunsPrefix(s0, steps[..k], r, j);
    }
  }

  lemma EarlierWrite(s0: System, steps: seq<Step>, i: nat, j: nat, v: VarId, x: string)
    requires i < j < |steps| && WritesAt(s0, steps, i, v, x)
    ensures Written(s0, steps[..j], v, x)
  {
    hide Runs, Generates;
    assert steps[..j][..i] == steps[..i];
    assert WritesAt(s0, steps[..j], i, v, x);
  }

  lemma WriteFindsNone(s0: System, steps: seq<Step>, j: nat, r: System, v: VarId, y: string)
    requires j < |steps| && Runs(s0, steps[..j], r) && Enabled(r, steps[j]) && Apply(r, steps[j]).Ok? && v in r.contents
    ensures !WritesAt(s0, steps, j, v, y)
  {
    hide Runs;
    if q :| Runs(s0, steps[..j], q) && Generates(q, steps[j], v, y) { RunsAgree(s0, steps[..j], q, r); }
  }
}
