/**
 * TestSequence: named parameters bound into the engine, then the steps run in
 * order until the first one that is not ok. `run` is proved against
 * `Verdict`, the reading of the step loop as a function of what each step
 * did, and every step's outcome is tied to `StepSpec` in the bindings the
 * previous steps left.
 */
module Sequences {
  import opened Wrappers
  import opened Json
  import opened Scripts
  import opened Matcher
  import opened Session
  import opened Steps
  import opened Decimal
  import opened Providers

  /** A sequence as read from YAML; every part may be absent (a Java null). */
  datatype TestSequence = TestSequence(
    description: Option<string>,
    parameters: Option<seq<string>>,
    steps: Option<seq<TestStep>>)

  /** The length of an array, 0 for a null one. */
  function Count<T>(a: Option<seq<T>>): (n: nat)
    ensures a.Some? ==> n == |a.value|
    ensures a.None? ==> n == 0
  {
    if a.None? then 0 else |a.value|
  }

  /** The error recorded when the declared and supplied parameter counts differ. */
  function CountMessage(expected: nat, found: nat): string {
    "expected " + Show(expected) + " parameters but found " + Show(found)
  }

  /** Digits followed by a non-digit can be split off one way only. */
  lemma DigitsSplit(x: string, u: string, y: string, v: string)
    requires forall i | 0 <= i < |x| :: IsDigit(x[i])
    requires forall i | 0 <= i < |y| :: IsDigit(y[i])
    requires u != [] && v != [] && !IsDigit(u[0]) && !IsDigit(v[0])
    requires x + u == y + v
    ensures x == y && u == v
  {
    assert x == (x + u)[..|x|] && y == (y + v)[..|y|];
    assert u == (x + u)[|x|..] && v == (y + v)[|y|..];
  }

  /** A common prefix cancels. */
  lemma PrefixCancel(p: string, x: string, y: string)
    requires p + x == p + y
    ensures x == y
  {
    assert x == (p + x)[|p|..] && y == (p + y)[|p|..];
  }

  /** The message names both counts: different counts give different messages. */
  lemma CountMessageNamesCounts(a: nat, b: nat, c: nat, d: nat)
    requires CountMessage(a, b) == CountMessage(c, d)
    ensures a == c && b == d
  {
    var p, mid := "expected ", " parameters but found ";
    MessageParts(p, mid, Show(a), Show(b));
    MessageParts(p, mid, Show(c), Show(d));
    PrefixCancel(p, Show(a) + (mid + Show(b)), Show(c) + (mid + Show(d)));
    assert (mid + Show(b))[0] == ' ' && (mid + Show(d))[0] == ' ';
    DigitsSplit(Show(a), mid + Show(b), Show(c), mid + Show(d));
    PrefixCancel(mid, Show(b), Show(d));
    ShowInjective(a, c);
    ShowInjective(b, d);
  }

  lemma MessageParts(p: string, mid: string, x: string, y: string)
    ensures p + x + mid + y == p + (x + (mid + y))
  {
  }

  /* ---------------------------------------------------------------------- *
   * Parameter binding.                                                     *
   * ---------------------------------------------------------------------- */

  /** putJson of each parameter in index order; a name that is not an
      identifier binds nothing. */
  function BindAll(env: Env, names: seq<string>, values: seq<Node>): Env
    requires |names| == |values|
  {
    if names == [] then env
    else
      var n := |names|;
      var before := BindAll(env, names[..n - 1], values[..n - 1]);
      if IsIdentifier(names[n - 1]) then before[names[n - 1] := values[n - 1]] else before
  }

  /** Parameter `i` is bound under its name when the name is an identifier and
      no later parameter has the same name. */
  lemma {:induction false} BindAllLookup(env: Env, names: seq<string>, values: seq<Node>, i: nat)
    requires |names| == |values| && i < |names|
    requires IsIdentifier(names[i])
    requires forall j | i < j < |names| :: names[j] != names[i]
    ensures names[i] in BindAll(env, names, values)
    ensures BindAll(env, names, values)[names[i]] == values[i]
    decreases |names|
  {
    var n := |names|;
    if i < n - 1 {
      BindAllLookup(env, names[..n - 1], values[..n - 1], i);
    }
  }

  /** A name that is not an identifier, or not a parameter, keeps its old
      binding, or stays unbound. */
  lemma {:induction false} BindAllElsewhere(env: Env, names: seq<string>, values: seq<Node>, k: string)
    requires |names| == |values|
    requires !IsIdentifier(k) || forall j | 0 <= j < |names| :: names[j] != k
    ensures k in BindAll(env, names, values) <==> k in env
    ensures k in env ==> BindAll(env, names, values)[k] == env[k]
    decreases |names|
  {
    if names != [] {
      var n := |names|;
      BindAllElsewhere(env, names[..n - 1], values[..n - 1], k);
    }
  }

  /** The index of the first null cell, or the number of cells when none is null. */
  function FirstNull(cells: seq<Option<Node>>): (k: nat)
    ensures k <= |cells|
    ensures forall j | 0 <= j < k :: cells[j].Some?
    ensures k < |cells| ==> cells[k].None?
  {
    if cells == [] || cells[0].None? then 0 else 1 + FirstNull(cells[1..])
  }

  /** The values of cells none of which is null. */
  function Values(cells: seq<Option<Node>>): (vs: seq<Node>)
    requires forall j | 0 <= j < |cells| :: cells[j].Some?
    ensures |vs| == |cells| && forall j | 0 <= j < |cells| :: vs[j] == cells[j].value
  {
    seq(|cells|, j requires 0 <= j < |cells| => cells[j].value)
  }

  /** The bindings the loop leaves: putJson of each parameter up to the first
      null cell, whose `json.toString()` raises out of the loop. */
  function Bindings(env: Env, names: seq<string>, cells: seq<Option<Node>>): Env
    requires |names| == |cells|
  {
    var k := FirstNull(cells);
    BindAll(env, names[..k], Values(cells[..k]))
  }

  /** The parameter whose cell is null is not bound: the exception leaves it
      as it was, unless an earlier parameter of the same name bound it. */
  lemma NullCellUnbound(env: Env, names: seq<string>, cells: seq<Option<Node>>)
    requires |names| == |cells| && FirstNull(cells) < |cells|
    requires forall j | 0 <= j < FirstNull(cells) :: names[j] != names[FirstNull(cells)]
    ensures var k := names[FirstNull(cells)];
            && (k in Bindings(env, names, cells) <==> k in env)
            && (k in env ==> Bindings(env, names, cells)[k] == env[k])
  {
    var n := FirstNull(cells);
    BindAllElsewhere(env, names[..n], Values(cells[..n]), names[n]);
  }

  /** A parameter before the first null cell is bound to its value, when its
      name is an identifier that no later bound parameter repeats. */
  lemma BindingsLookup(env: Env, names: seq<string>, cells: seq<Option<Node>>, i: nat)
    requires |names| == |cells| && i < FirstNull(cells)
    requires IsIdentifier(names[i])
    requires forall j | i < j < FirstNull(cells) :: names[j] != names[i]
    ensures names[i] in Bindings(env, names, cells)
    ensures Bindings(env, names, cells)[names[i]] == cells[i].value
  {
    var n := FirstNull(cells);
    BindAllLookup(env, names[..n], Values(cells[..n]), i);
  }

  /** A data row has a null cell exactly when its record lacks one of the
      parameters, so running the sequence on it escapes before any step. */
  lemma MissingFieldEscapes(ts: TestSequence, record: map<string, Node>)
    requires ts.parameters.Some?
    ensures NullParameter(ts, Some(Row(record, ts.parameters.value))) <==>
              exists j | 0 <= j < |ts.parameters.value| :: ts.parameters.value[j] !in record
  {
    var ps := ts.parameters.value;
    var cells := Row(record, ps);
    if j :| 0 <= j < |ps| && ps[j] !in record {
      assert cells[j].None?;
    }
    if FirstNull(cells) < |cells| {
      assert ps[FirstNull(cells)] !in record;
    }
  }

  /** The IntStream loop that binds the parameters. A null cell raises a
      NullPointerException out of putJson (`npe`), after the cells before it
      are bound. */
  method BindParameters(cmp: JsonComparator, names: seq<string>, cells: seq<Option<Node>>)
    returns (npe: bool)
    requires |names| == |cells|
    modifies cmp
    ensures npe <==> FirstNull(cells) < |cells|
    ensures cmp.env == Bindings(old(cmp.env), names, cells)
  {
    var i := 0;
    while i < |names|
      invariant 0 <= i <= FirstNull(cells)
      invariant cmp.env == BindAll(old(cmp.env), names[..i], Values(cells[..i]))
    {
      if cells[i].None? {
        return true;
      }
      cmp.PutJson(names[i], cells[i].value);
      assert names[..i + 1][..i] == names[..i];
      assert Values(cells[..i + 1])[..i] == Values(cells[..i]);
      i := i + 1;
    }
    return false;
  }

  /* ---------------------------------------------------------------------- *
   * The Result record and the step loop.                                   *
   * ---------------------------------------------------------------------- */

  /** TestSequence.Result. */
  class SequenceResult {
    var ok: bool
    var failed: int
    var failure: Option<Fault>
    var errors: Option<seq<string>>

    constructor()
      ensures ok && failed == -1 && failure == None && errors == None
    {
      ok, failed, failure, errors := true, -1, None, None;
    }

    /** Result.error: creates the list on first use, then appends. */
    method Error(msg: string)
      modifies this
      ensures errors == Appended(old(errors), [msg])
      ensures ok == old(ok) && failed == old(failed) && failure == old(failure)
    {
      errors := Some(errors.GetOr([]) + [msg]);
    }
  }

  /** printStackTrace into the Result: one error per printed line. */
  method PrintTrace(r: SequenceResult, trace: seq<string>)
    modifies r
    ensures r.errors == Appended(old(r.errors), trace)
    ensures r.ok == old(r.ok) && r.failed == old(r.failed) && r.failure == old(r.failure)
  {
    var i := 0;
    while i < |trace|
      invariant 0 <= i <= |trace|
      invariant r.errors == Appended(old(r.errors), trace[..i])
      invariant r.ok == old(r.ok) && r.failed == old(r.failed) && r.failure == old(r.failure)
    {
      r.Error(trace[i]);
      AppendedTwice(old(r.errors), trace[..i], [trace[i]]);
      assert trace[..i] + [trace[i]] == trace[..i + 1];
      i := i + 1;
    }
    assert trace[..i] == trace;
  }

  /** The fields of a sequence Result, as a value. */
  datatype SequenceVerdict = SequenceVerdict(ok: bool, failed: int, failure: Option<Fault>, errors: Option<seq<string>>)

  /** A step the loop goes on from (a skipped step included). */
  predicate Passed(o: StepOutcome) {
    o.Finished? && o.ok
  }

  /** The Result after the loop has run the steps whose outcomes are listed. */
  function Verdict(outcomes: seq<StepOutcome>): SequenceVerdict {
    if outcomes == [] || Passed(outcomes[|outcomes| - 1]) then Clean
    else Failing(|outcomes| - 1, outcomes[|outcomes| - 1])
  }

  /** The Result as constructed. */
  const Clean := SequenceVerdict(true, -1, None, None)

  /** The Result once step `i` did not pass: its errors, or its exception and trace. */
  function Failing(i: nat, o: StepOutcome): SequenceVerdict {
    match o
    case Finished(_, _, errs) => SequenceVerdict(false, i, None, errs)
    case Thrown(f) => SequenceVerdict(false, i, Some(f), Appended(None, f.trace))
  }

  /** Every step but the last one run passed. */
  predicate PassedBeforeLast(outcomes: seq<StepOutcome>) {
    forall i | 0 <= i < |outcomes| - 1 :: Passed(outcomes[i])
  }

  lemma PassedBeforeLastSnoc(outcomes: seq<StepOutcome>, o: StepOutcome)
    requires PassedBeforeLast(outcomes) && (outcomes == [] || Passed(outcomes[|outcomes| - 1]))
    ensures PassedBeforeLast(outcomes + [o])
  {
    var w := outcomes + [o];
    forall i | 0 <= i < |w| - 1
      ensures Passed(w[i])
    {
      assert w[i] == outcomes[i];
    }
  }

  /** The loop ran steps in order and stopped exactly after the first one that
      did not pass, or after the last step. */
  predicate StopsAtFirstFailure(outcomes: seq<StepOutcome>, n: nat) {
    && |outcomes| <= n
    && PassedBeforeLast(outcomes)
    && (|outcomes| < n ==> outcomes != [] && !Passed(outcomes[|outcomes| - 1]))
  }

  /** The sequence is ok exactly when every step passed; otherwise `failed` is
      the first step that did not, and the failure and errors are that step's. */
  lemma VerdictOfLoop(outcomes: seq<StepOutcome>, n: nat)
    requires StopsAtFirstFailure(outcomes, n)
    ensures Verdict(outcomes).ok <==> |outcomes| == n && forall i | 0 <= i < n :: Passed(outcomes[i])
    ensures Verdict(outcomes).ok ==> Verdict(outcomes) == SequenceVerdict(true, -1, None, None)
    ensures !Verdict(outcomes).ok ==>
              var f := Verdict(outcomes).failed;
              && 0 <= f < n && f == |outcomes| - 1
              && !Passed(outcomes[f]) && (forall i | 0 <= i < f :: Passed(outcomes[i]))
              && (outcomes[f].Finished? ==>
                    Verdict(outcomes).errors == outcomes[f].errors && Verdict(outcomes).failure == None)
              && (outcomes[f].Thrown? ==> Verdict(outcomes).failure == Some(outcomes[f].fault))
  {
  }

  /** One more step after steps that all passed. */
  lemma VerdictSnoc(outcomes: seq<StepOutcome>, o: StepOutcome)
    requires outcomes == [] || Passed(outcomes[|outcomes| - 1])
    ensures Verdict(outcomes) == Clean
    ensures Verdict(outcomes + [o]) == if Passed(o) then Clean else Failing(|outcomes|, o)
  {
    assert (outcomes + [o])[|outcomes|] == o;
  }

  /** What step `i` did, starting from the bindings `env` and leaving `env'`. */
  ghost predicate StepRan(eng: Engine, env: Env, env': Env, http: Http, describe: Comparison -> string,
                          step: TestStep, o: StepOutcome) {
    exists report :: Compared(eng, env, http, step, report, env') && StepSpec(eng, env, http, describe, step, report, env') == o
  }

  /** The bindings each step started from, and what each step did. */
  ghost predicate Chain(eng: Engine, http: Http, describe: Comparison -> string, steps: seq<TestStep>,
                        envs: seq<Env>, outcomes: seq<StepOutcome>) {
    && |envs| == |outcomes| + 1
    && |outcomes| <= |steps|
    && forall i | 0 <= i < |outcomes| :: StepRan(eng, envs[i], envs[i + 1], http, describe, steps[i], outcomes[i])
  }

  lemma ChainSnoc(eng: Engine, http: Http, describe: Comparison -> string, steps: seq<TestStep>,
                  envs: seq<Env>, outcomes: seq<StepOutcome>, env': Env, report: seq<Comparison>, o: StepOutcome)
    requires Chain(eng, http, describe, steps, envs, outcomes) && |outcomes| < |steps|
    requires Compared(eng, envs[|outcomes|], http, steps[|outcomes|], report, env')
    requires StepSpec(eng, envs[|outcomes|], http, describe, steps[|outcomes|], report, env') == o
    ensures Chain(eng, http, describe, steps, envs + [env'], outcomes + [o])
  {
    var envs', outcomes' := envs + [env'], outcomes + [o];
    forall i | 0 <= i < |outcomes'|
      ensures StepRan(eng, envs'[i], envs'[i + 1], http, describe, steps[i], outcomes'[i])
    {
      if i < |outcomes| {
        assert envs'[i] == envs[i] && envs'[i + 1] == envs[i + 1] && outcomes'[i] == outcomes[i];
      } else {
        assert envs'[i] == envs[i] && envs'[i + 1] == env' && outcomes'[i] == o;
      }
    }
  }

  /** One pass of the step loop, with its try/catch: runs step `i` and records
      its failure, if any, in the Result. */
  method RunOne(step: TestStep, i: nat, cmp: JsonComparator, r: SequenceResult, http: Http,
                describe: Comparison -> string)
    returns (ghost o: StepOutcome, ghost report: seq<Comparison>)
    requires ResultsInert(cmp.engine)
    requires SequenceVerdict(r.ok, r.failed, r.failure, r.errors) == Clean
    modifies cmp, r
    ensures Compared(cmp.engine, old(cmp.env), http, step, report, cmp.env)
    ensures StepSpec(cmp.engine, old(cmp.env), http, describe, step, report, cmp.env) == o
    ensures SequenceVerdict(r.ok, r.failed, r.failure, r.errors) == if Passed(o) then Clean else Failing(i, o)
  {
    var sr, thrown;
    sr, thrown, report := Steps.Run(step, cmp, http, describe);
    o := if thrown.Some? then Thrown(thrown.value) else Finished(sr.ok, sr.skip, sr.errors);
    if thrown.Some? {
      r.failed := i;
      r.ok := false;
      r.failure := thrown;
      PrintTrace(r, thrown.value.trace);
    } else if !sr.ok {
      r.failed := i;
      r.ok := false;
      r.errors := sr.errors;
    }
  }

  /** The counts agree and one of the supplied cells is null. */
  predicate NullParameter(ts: TestSequence, params: Option<seq<Option<Node>>>) {
    Count(ts.parameters) == Count(params) && FirstNull(params.GetOr([])) < Count(params)
  }

  /**
   * TestSequence.run. A null parameter cell (with matching counts) or a null
   * steps array raises a NullPointerException out of run (`escaped`), before
   * any step runs; a step's exception is caught and recorded. `outcomes` lists what each step that ran did and `envs` the
   * bindings before each of them and after the last.
   */
  method Run(ts: TestSequence, cmp: JsonComparator, http: Http, describe: Comparison -> string,
             params: Option<seq<Option<Node>>>)
    returns (r: SequenceResult, escaped: bool, ghost outcomes: seq<StepOutcome>, ghost envs: seq<Env>)
    requires ResultsInert(cmp.engine)
    modifies cmp
    ensures fresh(r)
    ensures escaped <==> ts.steps.None? || NullParameter(ts, params)
    ensures Count(ts.parameters) != Count(params) ==>
              && outcomes == [] && cmp.env == old(cmp.env)
              && (!escaped ==> r.ok == false && r.failed == -1 && r.failure == None
                               && r.errors == Some([CountMessage(Count(ts.parameters), Count(params))]))
    ensures Count(ts.parameters) == Count(params) ==>
              && Chain(cmp.engine, http, describe, ts.steps.GetOr([]), envs, outcomes)
              && envs[0] == Bindings(old(cmp.env), ts.parameters.GetOr([]), params.GetOr([]))
              && envs[|outcomes|] == cmp.env
              && (escaped ==> outcomes == [])
              && (!escaped ==> StopsAtFirstFailure(outcomes, |ts.steps.value|)
                               && SequenceVerdict(r.ok, r.failed, r.failure, r.errors) == Verdict(outcomes))
  {
    r := new SequenceResult();
    escaped, outcomes := false, [];
    var n, m := Count(ts.parameters), Count(params);
    if n != m {
      r.ok := false;
      r.Error(CountMessage(n, m));
      AppendedFresh([CountMessage(n, m)]);
    } else if n > 0 {
      escaped := BindParameters(cmp, ts.parameters.value, params.value);
    } else {
      assert ts.parameters.GetOr([]) == [] && params.GetOr([]) == [];
    }
    assert n == m ==> cmp.env == Bindings(old(cmp.env), ts.parameters.GetOr([]), params.GetOr([]));
    envs := [cmp.env];
    ghost var start := cmp.env;
    if escaped || ts.steps.None? {
      escaped := true;
      return;
    }
    var steps := ts.steps.value;
    var i := 0;
    while i < |steps| && r.ok
      invariant 0 <= i <= |steps| && i == |outcomes|
      invariant Chain(cmp.engine, http, describe, steps, envs, outcomes)
      invariant envs[0] == start && envs[i] == cmp.env
      invariant n != m ==> !r.ok && outcomes == []
      invariant n == m ==> SequenceVerdict(r.ok, r.failed, r.failure, r.errors) == Verdict(outcomes)
      invariant PassedBeforeLast(outcomes)
      invariant r.ok ==> outcomes == [] || Passed(outcomes[|outcomes| - 1])
      invariant n != m ==> r.failed == -1 && r.failure == None && r.errors == Some([CountMessage(n, m)])
      decreases |steps| - i
    {
      assert Verdict(outcomes) == Clean;
      ghost var o, report := RunOne(steps[i], i, cmp, r, http, describe);
      ChainSnoc(cmp.engine, http, describe, steps, envs, outcomes, cmp.env, report, o);
      VerdictSnoc(outcomes, o);
      PassedBeforeLastSnoc(outcomes, o);
      outcomes := outcomes + [o];
      envs := envs + [cmp.env];
      i := i + 1;
    }
  }
}
