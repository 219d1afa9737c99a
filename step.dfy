/**
 * TestStep: one request/response exchange guarded by a before script and
 * followed by an after script. `run` is a chain of guarded blocks that update
 * a Result record; it is proved against `StepSpec`, which reads the same chain
 * as a function of the engine, the HTTP layer and the order in which
 * compareNodes reported its mismatches.
 */
module Steps {
  import opened Wrappers
  import opened Json
  import opened Scripts
  import opened Matcher
  import opened MatcherFacts
  import opened Rewriter
  import opened Session

  /** A step as read from YAML; every part may be absent (a Java null). */
  datatype TestStep = TestStep(
    description: Option<string>,
    before: Option<string>,
    request: Option<Node>,
    response: Option<Node>,
    after: Option<string>)

  /** An exception that escapes a step, with the lines its stack trace prints. */
  datatype Fault = Fault(trace: seq<string>)

  /** What the HTTP layer makes of an evaluated request template: the request as
      sent and the response received, both as trees, or the exception it raised. */
  datatype Exchange = Answered(request: Node, response: Node) | Raised(fault: Fault)

  type Http = Node -> Exchange

  /** How a step ends: with its Result record, or by raising. */
  datatype StepOutcome = Finished(ok: bool, skip: bool, errors: Option<seq<string>>) | Thrown(fault: Fault)

  /** The engine variables the request and response are bound to. */
  const RequestVar: string := "request"
  const ResponseVar: string := "response"

  /** Both variables can be declared. */
  lemma ExchangeNamesAreIdentifiers()
    ensures IsIdentifier(RequestVar) && IsIdentifier(ResponseVar)
  {
    assert RequestVar == ['r', 'e', 'q', 'u', 'e', 's', 't'];
    assert ResponseVar == ['r', 'e', 's', 'p', 'o', 'n', 's', 'e'];
  }

  /* ---------------------------------------------------------------------- *
   * The error list of a Result.                                            *
   * ---------------------------------------------------------------------- */

  /** The error list after adding `msgs` one by one: created on the first one. */
  function Appended(errors: Option<seq<string>>, msgs: seq<string>): Option<seq<string>> {
    if msgs == [] then errors else Some(errors.GetOr([]) + msgs)
  }

  /** The first message creates the list. */
  lemma AppendedFresh(msgs: seq<string>)
    requires msgs != []
    ensures Appended(None, msgs) == Some(msgs)
  {
    assert [] + msgs == msgs;
  }

  /** A report is empty exactly when its multiset is. */
  lemma EmptyReport(report: seq<Comparison>)
    ensures report == [] <==> multiset(report) == multiset{}
  {
    if report != [] {
      assert report[0] in multiset(report);
    }
  }

  /** Adding messages in two batches is adding them in one; nothing is lost. */
  lemma AppendedTwice(errors: Option<seq<string>>, a: seq<string>, b: seq<string>)
    ensures Appended(Appended(errors, a), b) == Appended(errors, a + b)
    ensures Appended(errors, a).Some? ==> Appended(errors, a).value[..] <= Appended(errors, a + b).value
  {
    if a == [] {
      assert a + b == b;
    } else if b == [] {
      assert a + b == a;
    } else {
      assert errors.GetOr([]) + a + b == errors.GetOr([]) + (a + b);
    }
  }

  /** TestStep.Result. */
  class StepResult {
    var ok: bool
    var skip: bool
    var errors: Option<seq<string>>

    constructor()
      ensures ok && !skip && errors == None
    {
      ok, skip, errors := true, false, None;
    }

    /** Result.error: creates the list on first use, then appends. */
    method Error(msg: string)
      modifies this
      ensures errors == Appended(old(errors), [msg])
      ensures errors.Some? && errors.value == old(errors).GetOr([]) + [msg]
      ensures ok == old(ok) && skip == old(skip)
    {
      errors := Some(errors.GetOr([]) + [msg]);
    }
  }

  /** The messages of a report, in report order (Comparison.toString is a parameter). */
  function Describe(describe: Comparison -> string, report: seq<Comparison>): (msgs: seq<string>)
    ensures |msgs| == |report|
  {
    seq(|report|, i requires 0 <= i < |report| => describe(report[i]))
  }

  lemma DescribeSnoc(describe: Comparison -> string, report: seq<Comparison>, i: nat)
    requires i < |report|
    ensures Describe(describe, report[..i + 1]) == Describe(describe, report[..i]) + [describe(report[i])]
  {
  }

  /** The forEach over the mismatches: one error per mismatch, in list order. */
  method ReportEach(r: StepResult, report: seq<Comparison>, describe: Comparison -> string)
    modifies r
    ensures r.errors == Appended(old(r.errors), Describe(describe, report))
    ensures r.ok == old(r.ok) && r.skip == old(r.skip)
  {
    var i := 0;
    while i < |report|
      invariant 0 <= i <= |report|
      invariant r.errors == Appended(old(r.errors), Describe(describe, report[..i]))
      invariant r.ok == old(r.ok) && r.skip == old(r.skip)
    {
      r.Error(describe(report[i]));
      DescribeSnoc(describe, report, i);
      AppendedTwice(old(r.errors), Describe(describe, report[..i]), [describe(report[i])]);
      i := i + 1;
    }
    assert report[..i] == report;
  }

  /* ---------------------------------------------------------------------- *
   * The specification of run.                                              *
   * ---------------------------------------------------------------------- */

  /** What the before script evaluates to, if there is one. */
  function BeforeValue(eng: Engine, env: Env, step: TestStep): Option<ScriptValue> {
    if step.before.Some? then Some(Evaluate(eng, env, step.before.value)) else None
  }

  /** The before script neither failed nor asked to skip. */
  predicate Proceeds(eng: Engine, env: Env, step: TestStep) {
    BeforeValue(eng, env, step) != Some(FailureSentinel) && BeforeValue(eng, env, step) != Some(SuccessSentinel)
  }

  /** The exchange the step makes, if it gets as far as its request. */
  function Exchanged(eng: Engine, env: Env, http: Http, step: TestStep): Option<Exchange> {
    if Proceeds(eng, env, step) && step.request.Some? then Some(http(Rewrite(eng, env, step.request.value))) else None
  }

  /** The engine bindings once the request block is done. */
  function Bindings(eng: Engine, env: Env, http: Http, step: TestStep): Env {
    match Exchanged(eng, env, http, step)
    case Some(Answered(q, p)) => env[RequestVar := q][ResponseVar := p]
    case _ => env
  }

  /** The expected response names a schema. */
  predicate NamesSchema(expected: Node) {
    expected.Obj? && "schema" in expected.fields
  }

  /**
   * The tree compareNodes is given: the received response after setSchema,
   * which adds a `schema` field holding the text of the expected `schema`
   * entry (a response tree is always an object; any other tree is left as is).
   */
  function ComparedResponse(expected: Node, p: Node): Node {
    if NamesSchema(expected) && p.Obj? then Obj(p.fields["schema" := Text(AsText(expected.fields["schema"]))]) else p
  }

  /** The step compares the received response with the expected one. */
  predicate CompareReached(eng: Engine, env: Env, http: Http, step: TestStep) {
    Exchanged(eng, env, http, step).Some? && Exchanged(eng, env, http, step).value.Answered? && step.response.Some?
  }

  /**
   * `report` is the mismatch list compareNodes returns (its order is not
   * modelled, its multiset is) and `envAfter` the bindings the after script
   * sees; without a comparison, the report is empty and the bindings are those
   * the request block left.
   */
  ghost predicate Compared(eng: Engine, env: Env, http: Http, step: TestStep, report: seq<Comparison>, envAfter: Env) {
    if CompareReached(eng, env, http, step) then
      var bound := Bindings(eng, env, http, step);
      var got := ComparedResponse(step.response.value, Exchanged(eng, env, http, step).value.response);
      && multiset(report) == Mismatches(eng, bound, step.response, Some(got))
      && Rebound(envAfter, bound)
    else
      report == [] && envAfter == Bindings(eng, env, http, step)
  }

  /** The after block, once everything before it passed. */
  function AfterPhase(eng: Engine, env: Env, step: TestStep): StepOutcome {
    if step.after.Some? && Evaluate(eng, env, step.after.value) == FailureSentinel then
      Finished(false, false, Appended(None, ["after script failed: " + step.after.value]))
    else
      Finished(true, false, None)
  }

  /** TestStep.run, block by block. */
  function StepSpec(eng: Engine, env: Env, http: Http, describe: Comparison -> string, step: TestStep,
                    report: seq<Comparison>, envAfter: Env): StepOutcome
  {
    match BeforeValue(eng, env, step)
    case Some(FailureSentinel) => Finished(false, false, Appended(None, ["before script failed: " + step.before.value]))
    case Some(SuccessSentinel) => Finished(true, true, None)
    case _ =>
      match Exchanged(eng, env, http, step)
      case Some(Raised(f)) => Thrown(f)
      case _ =>
        if CompareReached(eng, env, http, step) && report != [] then
          Finished(false, false, Appended(None, Describe(describe, report)))
        else
          AfterPhase(eng, envAfter, step)
  }

  /* ---------------------------------------------------------------------- *
   * Properties of run.                                                     *
   * ---------------------------------------------------------------------- */

  /** Every finished step is ok exactly when it has no errors, a failing step
      has at least one error, and a skipped step is ok. */
  lemma StepOutcomeShape(eng: Engine, env: Env, http: Http, describe: Comparison -> string, step: TestStep,
                         report: seq<Comparison>, envAfter: Env)
    ensures var o := StepSpec(eng, env, http, describe, step, report, envAfter);
      o.Finished? ==> (o.ok <==> o.errors.None?) && (o.skip ==> o.ok) && (o.errors.Some? ==> o.errors.value != [])
  {
  }

  /** A failing before script records one error and nothing else runs. */
  lemma BeforeFailureStops(eng: Engine, env: Env, http: Http, describe: Comparison -> string, step: TestStep,
                           report: seq<Comparison>, envAfter: Env)
    requires step.before.Some? && Evaluate(eng, env, step.before.value) == FailureSentinel
    requires Compared(eng, env, http, step, report, envAfter)
    ensures StepSpec(eng, env, http, describe, step, report, envAfter)
              == Finished(false, false, Some(["before script failed: " + step.before.value]))
    ensures Exchanged(eng, env, http, step).None? && report == [] && envAfter == env
  {
    AppendedFresh(["before script failed: " + step.before.value]);
  }

  /** A before script answering SUCCESS skips the rest and leaves the step ok. */
  lemma BeforeSuccessSkips(eng: Engine, env: Env, http: Http, describe: Comparison -> string, step: TestStep,
                           report: seq<Comparison>, envAfter: Env)
    requires step.before.Some? && Evaluate(eng, env, step.before.value) == SuccessSentinel
    requires Compared(eng, env, http, step, report, envAfter)
    ensures StepSpec(eng, env, http, describe, step, report, envAfter) == Finished(true, true, None)
    ensures Exchanged(eng, env, http, step).None? && report == [] && envAfter == env
  {
  }

  /** Without a request template there is no exchange and no comparison, even
      with an expected response; only the after script can fail the step. */
  lemma NoRequestNoComparison(eng: Engine, env: Env, http: Http, describe: Comparison -> string, step: TestStep,
                              report: seq<Comparison>, envAfter: Env)
    requires step.request.None? && Proceeds(eng, env, step)
    requires Compared(eng, env, http, step, report, envAfter)
    ensures !CompareReached(eng, env, http, step) && report == [] && envAfter == env
    ensures StepSpec(eng, env, http, describe, step, report, envAfter) == AfterPhase(eng, env, step)
  {
  }

  /** Once compared, the step is ok exactly when nothing mismatched and the after
      script did not fail; each mismatch is one error. */
  lemma ComparisonVerdict(eng: Engine, env: Env, http: Http, describe: Comparison -> string, step: TestStep,
                          report: seq<Comparison>, envAfter: Env)
    requires CompareReached(eng, env, http, step)
    requires Compared(eng, env, http, step, report, envAfter)
    ensures var o := StepSpec(eng, env, http, describe, step, report, envAfter);
      var bound := Bindings(eng, env, http, step);
      var got := ComparedResponse(step.response.value, Exchanged(eng, env, http, step).value.response);
      && o.Finished?
      && (o.ok <==> Mismatches(eng, bound, step.response, Some(got)) == multiset{}
                    && !(step.after.Some? && Evaluate(eng, envAfter, step.after.value) == FailureSentinel))
      && (report != [] ==> o.errors == Some(Describe(describe, report)))
  {
    var bound := Bindings(eng, env, http, step);
    var got := ComparedResponse(step.response.value, Exchanged(eng, env, http, step).value.response);
    assert multiset(report) == Mismatches(eng, bound, step.response, Some(got));
    EmptyReport(report);
    if report != [] {
      AppendedFresh(Describe(describe, report));
    } else {
      assert StepSpec(eng, env, http, describe, step, report, envAfter) == AfterPhase(eng, envAfter, step);
    }
  }

  /** An after script that does not answer FAILURE leaves the verdict alone. */
  lemma AfterOnlyFails(eng: Engine, env: Env, step: TestStep)
    ensures AfterPhase(eng, env, step).ok <==>
              !(step.after.Some? && Evaluate(eng, env, step.after.value) == FailureSentinel)
    ensures !AfterPhase(eng, env, step).ok ==>
              AfterPhase(eng, env, step).errors == Some(["after script failed: " + step.after.value])
  {
    if step.after.Some? {
      AppendedFresh(["after script failed: " + step.after.value]);
    }
  }

  /** A response that repeats the expected tree verbatim (no scripts, no Missing,
      and a `schema` entry, if any, given as text) passes the comparison,
      whatever order the report would have had. */
  lemma EchoedResponsePasses(eng: Engine, env: Env, http: Http, describe: Comparison -> string, step: TestStep,
                             report: seq<Comparison>, envAfter: Env)
    requires CompareReached(eng, env, http, step)
    requires Exchanged(eng, env, http, step).value.response == step.response.value
    requires ScriptFree(step.response.value) && NoMissing(step.response.value)
    requires NamesSchema(step.response.value) ==> step.response.value.fields["schema"].Text?
    requires step.after.None?
    requires Compared(eng, env, http, step, report, envAfter)
    ensures StepSpec(eng, env, http, describe, step, report, envAfter) == Finished(true, false, None)
  {
    var e := step.response.value;
    if NamesSchema(e) {
      assert e.fields["schema" := Text(AsText(e.fields["schema"]))] == e.fields;
    }
    assert ComparedResponse(e, e) == e;
    SelfComparison(eng, Bindings(eng, env, http, step), e);
    EmptyReport(report);
  }

  /** The `schema` entry of an expected response, given as text without a
      script, matches the field setSchema adds: nothing is reported there. */
  lemma SchemaFieldMatches(eng: Engine, env: Env, expected: Node, p: Node)
    requires NamesSchema(expected) && p.Obj?
    requires expected.fields["schema"].Text? && Script(expected.fields["schema"]).None?
    ensures var c := FieldAt(Root(Some(expected), Some(ComparedResponse(expected, p))), "schema");
      && c.expected == Some(expected.fields["schema"]) && c.actual == c.expected
      && Walk(eng, env, c).report == multiset{}
  {
    var c := FieldAt(Root(Some(expected), Some(ComparedResponse(expected, p))), "schema");
    ScalarVerdict(eng, env, c);
  }

  /** A `schema` entry given as a number is compared with its own text, so the
      step always reports it. */
  lemma NumericSchemaReported(eng: Engine, env: Env, expected: Node, p: Node)
    requires NamesSchema(expected) && p.Obj? && expected.fields["schema"].Num?
    ensures var c := FieldAt(Root(Some(expected), Some(ComparedResponse(expected, p))), "schema");
      Walk(eng, env, c).report == multiset{c}
  {
    var c := FieldAt(Root(Some(expected), Some(ComparedResponse(expected, p))), "schema");
    KindMismatch(eng, env, c);
  }

  /* ---------------------------------------------------------------------- *
   * run.                                                                   *
   * ---------------------------------------------------------------------- */

  /**
   * The schema block: when the expected response names a schema, the received
   * response records it (setSchema), so the tree compared next carries it.
   * The validation against the schema itself is foreign code.
   */
  method ApplySchema(expected: Node, p: Node) returns (got: Node)
    ensures got == ComparedResponse(expected, p)
  {
    got := p;
    if expected.Obj? && "schema" in expected.fields {
      var schema := AsText(expected.fields["schema"]);
      if got.Obj? {
        got := Obj(got.fields["schema" := Text(schema)]);
      }
    }
  }

  /** The compare block: one error per mismatch, ok exactly when there are none. */
  method CompareResponse(expected: Node, got: Node, cmp: JsonComparator, r: StepResult, describe: Comparison -> string)
    returns (report: seq<Comparison>)
    modifies cmp, r
    ensures multiset(report) == Mismatches(cmp.engine, old(cmp.env), Some(expected), Some(got))
    ensures Rebound(cmp.env, old(cmp.env))
    ensures r.ok == (report == []) && r.skip == old(r.skip)
    ensures r.errors == Appended(old(r.errors), Describe(describe, report))
  {
    report := cmp.CompareNodes(Some(expected), Some(got));
    r.ok := report == [];
    ReportEach(r, report, describe);
  }

  /**
   * TestStep.run. The HTTP layer (conversion of the evaluated template to a
   * Request, sending it, and both sides as trees) is the parameter `http`;
   * Comparison.toString is `describe`. `report` is the order in which
   * compareNodes reported.
   */
  method Run(step: TestStep, cmp: JsonComparator, http: Http, describe: Comparison -> string)
    returns (r: StepResult, thrown: Option<Fault>, ghost report: seq<Comparison>)
    requires ResultsInert(cmp.engine)
    modifies cmp
    ensures fresh(r)
    ensures Compared(cmp.engine, old(cmp.env), http, step, report, cmp.env)
    ensures thrown.None? ==> StepSpec(cmp.engine, old(cmp.env), http, describe, step, report, cmp.env)
                               == Finished(r.ok, r.skip, r.errors)
    ensures thrown.Some? ==> StepSpec(cmp.engine, old(cmp.env), http, describe, step, report, cmp.env)
                               == Thrown(thrown.value)
  {
    ghost var env0 := cmp.env;
    r := new StepResult();
    thrown, report := None, [];
    if r.ok && step.before.Some? {
      var v := cmp.EvalScript(step.before.value);
      if v == FailureSentinel {
        r.ok := false;
        r.Error("before script failed: " + step.before.value);
      } else if v == SuccessSentinel {
        r.skip := true;
      }
    }
    assert r.ok && !r.skip <==> Proceeds(cmp.engine, env0, step);
    var actual: Option<Node> := None;
    if r.ok && !r.skip && step.request.Some? {
      var sent := cmp.EvalNode(step.request);
      match http(sent.value)
      case Raised(f) =>
        thrown := Some(f);
        return;
      case Answered(q, p) =>
        actual := Some(p);
        r.ok := actual.Some?;
        ExchangeNamesAreIdentifiers();
        cmp.PutJson(RequestVar, q);
        cmp.PutJson(ResponseVar, p);
    }
    assert cmp.env == Bindings(cmp.engine, env0, http, step);
    if r.ok && !r.skip && actual.Some? && step.response.Some? {
      var got := ApplySchema(step.response.value, actual.value);
      report := CompareResponse(step.response.value, got, cmp, r, describe);
    }
    if r.ok && !r.skip && step.after.Some? {
      var v := cmp.EvalScript(step.after.value);
      if v == FailureSentinel {
        r.ok := false;
        r.Error("after script failed: " + step.after.value);
      }
    }
  }
}
