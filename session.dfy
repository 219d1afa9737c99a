/**
 * JsonComparator: one script engine and the two work-list loops that use it.
 * compareNodes pops comparisons from a FIFO queue and reports the ones that
 * fail; evalNode pops editors from a FIFO queue and writes every script's
 * value back into the tree. Both are proved against the recursive
 * specifications `Mismatches` and `Rewrite`.
 */
module Session {
  import opened Wrappers
  import opened Json
  import opened Scripts
  import opened Matcher
  import opened Rewriter

  /** The engine bindings differ from `env0` at most in the variable `actual`. */
  predicate Rebound(env: Env, env0: Env) {
    env == env0 || (ActualVar in env && env == env0[ActualVar := env[ActualVar]])
  }

  /** Binding `actual` after any earlier binding of it is binding it once. */
  lemma BindAfterRebound(env: Env, env0: Env, a: Node)
    requires Rebound(env, env0)
    ensures env[ActualVar := a] == Bind(env0, a)
    ensures Rebound(env[ActualVar := a], env0)
  {
    if env != env0 {
      assert env0[ActualVar := env[ActualVar]][ActualVar := a] == env0[ActualVar := a];
    }
  }

  /** The pending editors all point at the nodes they hold, and at disjoint places. */
  predicate Editing(root: Node, visits: seq<Editor>) {
    && (forall i | 0 <= i < |visits| :: At(root, visits[i].at) == Some(visits[i].node))
    && (forall i, j | 0 <= i < j < |visits| :: Apart(visits[i].at, visits[j].at))
  }

  class JsonComparator {
    /** The JavaScript engine, as the function from bindings and script to outcome. */
    const engine: Engine
    /** The variables bound in the engine so far. */
    var env: Env

    /** A comparator whose engine starts with the prelude bindings (`success`,
        `failure`, `expect`, ...). */
    constructor(engine: Engine, prelude: Env)
      ensures this.engine == engine && env == prelude
    {
      this.engine := engine;
      env := prelude;
    }

    /**
     * putJson: evaluates `var name=<json>`. For a name that is not an
     * identifier that statement is a syntax error, which is logged and
     * swallowed, so the bindings stay as they were.
     */
    method PutJson(name: string, json: Node)
      modifies this
      ensures env == if IsIdentifier(name) then old(env)[name := json] else old(env)
    {
      if IsIdentifier(name) {
        env := env[name := json];
      }
    }

    /** evalScript: a script exception becomes the FAILURE sentinel. */
    method EvalScript(body: string) returns (r: ScriptValue)
      ensures r == Evaluate(engine, env, body)
      ensures engine(env, body).Threw? ==> r == FailureSentinel
    {
      var outcome := engine(env, body);
      match outcome
      case Threw => r := FailureSentinel;
      case Returned(v) => r := v;
    }

    /** compareNodes: the comparisons that fail, each once; the engine keeps the
        last `actual` it was given. */
    method CompareNodes(expected: Option<Node>, actual: Option<Node>) returns (report: seq<Comparison>)
      modifies this
      ensures multiset(report) == Mismatches(engine, old(env), expected, actual)
      ensures Rebound(env, old(env))
    {
      ghost var env0 := env;
      var compares := [Root(expected, actual)];
      report := [];
      PendingOne(engine, env0, Root(expected, actual));
      while compares != []
        invariant Rebound(env, env0)
        invariant multiset(report) + Pending(engine, env0, compares).report == Mismatches(engine, env0, expected, actual)
        decreases Pending(engine, env0, compares).visits
      {
        var c := compares[0];
        var flagged, kids := Visit(c, env0);
        PoppedOne(engine, env0, compares, report, flagged, kids);
        compares := compares[1..] + kids;
        report := report + flagged;
      }
    }

    /** One pass of the compareNodes loop: what it reports for `c` and what it queues. */
    method Visit(c: Comparison, ghost env0: Env) returns (flagged: seq<Comparison>, kids: seq<Comparison>)
      requires Rebound(env, env0)
      modifies this
      ensures Rebound(env, env0)
      ensures Walk(engine, env0, c) == Tally(1, multiset(flagged)).Plus(Pending(engine, env0, kids))
    {
      flagged, kids := [], [];
      if c.expected.None? || c.actual.None? {
        if c.expected.Some? || c.actual.Some? {
          flagged := [c];
        }
        WalkGuarded(engine, env0, c, flagged);
        return;
      }
      var current := c;
      var body := Script(c.expected.value);
      if body.Some? {
        BindAfterRebound(env, env0, c.actual.value);
        ActualIsIdentifier();
        PutJson(ActualVar, c.actual.value);
        var result := EvalScript(body.value);
        match result
        case SuccessSentinel => WalkVerdict(engine, env0, c, flagged); return;
        case FailureSentinel => flagged := [c]; WalkVerdict(engine, env0, c, flagged); return;
        case Data(n) => current := c.(expected := Some(n));
      }
      flagged, kids := Check(current, env0);
      WalkJudged(engine, env0, c, current, flagged, kids);
    }

    /** The kind, number, value, array and object rules of compareNodes. */
    method Check(c: Comparison, ghost env0: Env) returns (flagged: seq<Comparison>, kids: seq<Comparison>)
      requires c.expected.Some? && c.actual.Some?
      ensures Judge(engine, env0, c) == Tally(0, multiset(flagged)).Plus(Pending(engine, env0, kids))
    {
      flagged, kids := [c], [];
      var e, a := c.expected.value, c.actual.value;
      if TypeOf(e) != TypeOf(a) {
      } else if e.Num? {
        if NumbersMatch(e.n, a.n) {
          flagged := [];
        }
      } else if IsValueNode(e) {
        if a == e {
          flagged := [];
        }
      } else if e.Arr? {
        if |e.elems| == |a.elems| {
          flagged := [];
          kids := QueueElements(engine, env0, c, |e.elems|);
        }
      } else if e.Obj? {
        var d := c;
        if "**" in e.fields {
          d := SetExtra(c, e.fields["**"]);
        }
        var own := QueueFields(engine, env0, d, e.fields.Keys - {"*", "**"});
        var others := QueueFields(engine, env0, d, a.fields.Keys - e.fields.Keys);
        PendingAppend(engine, env0, own, others);
        flagged, kids := [], own + others;
      }
    }

    /** evalNode: the tree with every script replaced by its value; a null tree
        stays null. */
    method EvalNode(json: Option<Node>) returns (r: Option<Node>)
      requires ResultsInert(engine)
      ensures json.None? ==> r.None?
      ensures json.Some? ==> r == Some(Rewrite(engine, env, json.value))
    {
      if json.None? {
        return None;
      }
      var root := json.value;
      var visits := [Editor(root, [])];
      assert Fill(engine, env, root, visits) == Put(root, [], Rewrite(engine, env, root));
      while visits != []
        invariant Editing(root, visits)
        invariant Fill(engine, env, root, visits) == Rewrite(engine, env, json.value)
        decreases Work(engine, env, visits)
      {
        var e := visits[0];
        ghost var rest := visits[1..];
        ghost var base := Fill(engine, env, root, rest);
        EditorInPlace(engine, env, root, visits);
        ghost var before := root;
        var node := e.node;
        var body := Script(node);
        if body.Some? {
          var result := EvalScript(body.value);
          node := AsNode(result);
          root := e.Replace(root, node);
        } else {
          PutExisting(root, e.at, node);
        }
        var kids := QueueChildren(engine, env, node, e.at, base);
        EditingKept(before, visits, node, kids);
        FillKept(engine, env, before, visits, node, kids);
        WorkKept(engine, env, visits, node, kids);
        visits := visits[1..] + kids;
      }
      r := Some(root);
    }
  }

  /** A comparison with a null side is flagged unless both sides are null. */
  lemma WalkGuarded(eng: Engine, env: Env, c: Comparison, flagged: seq<Comparison>)
    requires c.expected.None? || c.actual.None?
    requires flagged == if c.expected.Some? || c.actual.Some? then [c] else []
    ensures Walk(eng, env, c) == Tally(1, multiset(flagged)).Plus(Pending(eng, env, []))
  {
  }

  /** A script that answers with a sentinel settles the comparison outright. */
  lemma WalkVerdict(eng: Engine, env: Env, c: Comparison, flagged: seq<Comparison>)
    requires c.expected.Some? && c.actual.Some? && Script(c.expected.value).Some?
    requires Evaluate(eng, Bind(env, c.actual.value), Script(c.expected.value).value)
               == if flagged == [] then SuccessSentinel else FailureSentinel
    requires flagged == [] || flagged == [c]
    ensures Walk(eng, env, c) == Tally(1, multiset(flagged)).Plus(Pending(eng, env, []))
  {
  }

  /** Otherwise the comparison, with a script's data in place of the expected
      side, goes through the rules. */
  lemma WalkJudged(eng: Engine, env: Env, c: Comparison, current: Comparison,
                   flagged: seq<Comparison>, kids: seq<Comparison>)
    requires c.expected.Some? && c.actual.Some?
    requires current.expected.Some? && current.actual == c.actual
    requires Script(c.expected.value).None? ==> current == c
    requires Script(c.expected.value).Some? ==>
               && Evaluate(eng, Bind(env, c.actual.value), Script(c.expected.value).value) == Data(current.expected.value)
               && current == c.(expected := current.expected)
    requires Judge(eng, env, current) == Tally(0, multiset(flagged)).Plus(Pending(eng, env, kids))
    ensures Walk(eng, env, c) == Tally(1, multiset(flagged)).Plus(Pending(eng, env, kids))
  {
    WalkToJudge(eng, env, c, current);
    CountVisit(Judge(eng, env, current), multiset(flagged), Pending(eng, env, kids));
  }

  lemma WalkToJudge(eng: Engine, env: Env, c: Comparison, current: Comparison)
    requires c.expected.Some? && c.actual.Some?
    requires current.expected.Some? && current.actual == c.actual
    requires Script(c.expected.value).None? ==> current == c
    requires Script(c.expected.value).Some? ==>
               && Evaluate(eng, Bind(env, c.actual.value), Script(c.expected.value).value) == Data(current.expected.value)
               && current == c.(expected := current.expected)
    ensures Walk(eng, env, c) == Tally(1, multiset{}).Plus(Judge(eng, env, current))
  {
  }

  lemma CountVisit(judged: Tally, flagged: multiset<Comparison>, kids: Tally)
    requires judged == Tally(0, flagged).Plus(kids)
    ensures Tally(1, multiset{}).Plus(judged) == Tally(1, flagged).Plus(kids)
  {
  }

  /** Popping the head of the work-list, reporting what it flags and appending
      what it queues keeps the report-so-far plus the pending tally, and leaves
      fewer comparisons to pop. */
  lemma PoppedOne(eng: Engine, env: Env, q: seq<Comparison>, report: seq<Comparison>,
                  flagged: seq<Comparison>, kids: seq<Comparison>)
    requires q != []
    requires Walk(eng, env, q[0]) == Tally(1, multiset(flagged)).Plus(Pending(eng, env, kids))
    ensures multiset(report + flagged) + Pending(eng, env, q[1..] + kids).report
              == multiset(report) + Pending(eng, env, q).report
    ensures Pending(eng, env, q[1..] + kids).visits < Pending(eng, env, q).visits
  {
    PendingAppend(eng, env, q[1..], kids);
    PendingCons(eng, env, q);
    TallyStep(multiset(report), multiset(flagged), Walk(eng, env, q[0]),
              Pending(eng, env, q[1..]), Pending(eng, env, kids));
  }

  lemma PendingCons(eng: Engine, env: Env, q: seq<Comparison>)
    requires q != []
    ensures Pending(eng, env, q) == Walk(eng, env, q[0]).Plus(Pending(eng, env, q[1..]))
  {
  }

  /** The bookkeeping of one pass, over tallies alone. */
  lemma TallyStep(done: multiset<Comparison>, flagged: multiset<Comparison>, head: Tally, rest: Tally, kids: Tally)
    requires head == Tally(1, flagged).Plus(kids)
    ensures done + flagged + rest.Plus(kids).report == done + head.Plus(rest).report
    ensures rest.Plus(kids).visits < head.Plus(rest).visits
  {
  }

  /** The head editor holds what the tree has at its place, even after the rest
      of the work-list is written back. */
  lemma EditorInPlace(eng: Engine, env: Env, root: Node, visits: seq<Editor>)
    requires Editing(root, visits) && visits != []
    ensures At(root, visits[0].at) == Some(visits[0].node)
    ensures AllApartFrom(visits[0].at, visits[1..])
    ensures At(Fill(eng, env, root, visits[1..]), visits[0].at) == Some(visits[0].node)
  {
    assert forall i | 0 <= i < |visits[1..]| :: visits[1..][i] == visits[i + 1];
    FillKeeps(eng, env, root, visits[0].at, visits[1..]);
  }

  /** Replacing the head editor's node and queueing its children keeps every
      editor pointing at its node, at disjoint places. */
  lemma EditingKept(root: Node, visits: seq<Editor>, node: Node, kids: seq<Editor>)
    requires Editing(root, visits) && visits != []
    requires forall i | 0 <= i < |kids| :: KidOf(node, visits[0].at, kids[i])
    requires forall i, j | 0 <= i < j < |kids| :: kids[i].at != kids[j].at
    ensures Editing(Put(root, visits[0].at, node), visits[1..] + kids)
  {
    var at, rest := visits[0].at, visits[1..];
    var root', q := Put(root, at, node), rest + kids;
    AtPutSame(root, at, node);
    forall i | 0 <= i < |q|
      ensures At(root', q[i].at) == Some(q[i].node)
    {
      if i < |rest| {
        assert rest[i] == visits[i + 1];
        AtPutApart(root, at, rest[i].at, node);
      } else {
        var kid := kids[i - |rest|];
        assert kid.at == at + [kid.at[|at|]];
        AtSnoc(root', at, kid.at[|at|]);
      }
    }
    forall i, j | 0 <= i < j < |q|
      ensures Apart(q[i].at, q[j].at)
    {
      if j < |rest| {
        assert rest[i] == visits[i + 1] && rest[j] == visits[j + 1];
      } else if i < |rest| {
        var kid := kids[j - |rest|];
        assert rest[i] == visits[i + 1];
        assert kid.at == at + [kid.at[|at|]];
        ApartBelow(at, rest[i].at, kid.at[|at|]);
      } else {
        KidsApart(node, at, kids[i - |rest|], kids[j - |rest|]);
      }
    }
  }

  /** The tree the work-list promises is the same before and after one pass. */
  lemma FillKept(eng: Engine, env: Env, root: Node, visits: seq<Editor>, node: Node, kids: seq<Editor>)
    requires ResultsInert(eng)
    requires Editing(root, visits) && visits != []
    requires node == Settle(eng, env, visits[0].node)
    requires Fill(eng, env, Put(Fill(eng, env, root, visits[1..]), visits[0].at, node), kids)
               == Put(Fill(eng, env, root, visits[1..]), visits[0].at, Descend(eng, env, node))
    ensures Fill(eng, env, Put(root, visits[0].at, node), visits[1..] + kids) == Fill(eng, env, root, visits)
  {
    var e, rest := visits[0], visits[1..];
    var base := Fill(eng, env, root, rest);
    EditorInPlace(eng, env, root, visits);
    FillAppend(eng, env, Put(root, e.at, node), rest, kids);
    FillPutCommute(eng, env, root, e.at, node, rest);
    SettleThenDescend(eng, env, e.node);
    FillPutCommute(eng, env, root, e.at, Rewrite(eng, env, e.node), rest);
  }

  /** One pass leaves less work: the popped node is done, its children remain. */
  lemma WorkKept(eng: Engine, env: Env, visits: seq<Editor>, node: Node, kids: seq<Editor>)
    requires ResultsInert(eng)
    requires visits != [] && node == Settle(eng, env, visits[0].node)
    requires Work(eng, env, kids) + 1 == Size(Descend(eng, env, node))
    ensures Work(eng, env, visits[1..] + kids) < Work(eng, env, visits)
  {
    WorkAppend(eng, env, visits[1..], kids);
    SettleThenDescend(eng, env, visits[0].node);
  }
}
