/** Building runs of the protocol step by step. */
module SyncRuns {
  import opened JsStrings
  import opened Model
  import opened SyncProtocol

  /** One step of a run. */
  ghost predicate Leads(s: State, a: Action, t: State) {
    Enabled(s, a) && Step(s, a) == t
  }

  lemma RunsOn(s: State, a: Action, t: State, rest: seq<Action>, u: State)
    requires Leads(s, a, t) && Runs(t, rest, u)
    ensures Runs(s, [a] + rest, u)
  {
    var actions := [a] + rest;
    assert actions[0] == a && actions[1..] == rest;
  }

  lemma FiveSteps(s0: State, a: Action, s1: State, b: Action, s2: State, c: Action, s3: State, d: Action, s4: State, e: Action, s5: State,
                  rest: seq<Action>, u: State)
    requires Leads(s0, a, s1) && Leads(s1, b, s2) && Leads(s2, c, s3) && Leads(s3, d, s4) && Leads(s4, e, s5) && Runs(s5, rest, u)
    ensures Runs(s0, [a] + ([b] + ([c] + ([d] + ([e] + rest)))), u)
  {
    RunsOn(s4, e, s5, rest, u);
    RunsOn(s3, d, s4, [e] + rest, u);
    RunsOn(s2, c, s3, [d] + ([e] + rest), u);
    RunsOn(s1, b, s2, [c] + ([d] + ([e] + rest)), u);
    RunsOn(s0, a, s1, [b] + ([c] + ([d] + ([e] + rest))), u);
  }

  lemma Overwrite(ops: map<OpId, Operation>, o: OpId, a: Operation, b: Operation)
    ensures ops[o := a][o := b] == ops[o := b]
  {
  }
}
