/**
 * What the matcher promises: the number rule, the outcome of each kind of
 * comparison, that a tree always matches itself, that every reported
 * comparison is a genuine local mismatch found where the actual tree has
 * that node, and how actual-only fields are judged.
 */
module MatcherFacts {
  import opened Wrappers
  import opened Json
  import opened Scripts
  import opened Matcher

  /* ---------------------------------------------------------------------- *
   * Numbers.                                                               *
   * ---------------------------------------------------------------------- */

  /** Two numbers match exactly when they are integral with the same value and
      either fit a long or are held by the same node class, or are the same
      non-integral number. */
  lemma NumbersMatchIff(e: Number, a: Number)
    ensures NumbersMatch(e, a) <==>
              (e.Integral? && a.Integral? && e.value == a.value
                 && ((MinLong <= e.value <= MaxLong) || e.repr == a.repr))
              || (e.Fraction? && a == e)
  {
  }

  /** Within the long range the node class does not matter; above it, a double
      and a big integer of equal value do not match. */
  lemma NumbersAcrossClasses(v: int)
    ensures MinLong <= v <= MaxLong ==> NumbersMatch(Integral(v, Int32), Integral(v, BigInteger))
    ensures v > MaxLong ==> !NumbersMatch(Integral(v, Double), Integral(v, BigInteger))
    ensures NumbersMatch(Integral(v, BigInteger), Integral(v, BigInteger))
  {
  }

  /* ---------------------------------------------------------------------- *
   * Folds over field names.                                                *
   * ---------------------------------------------------------------------- */

  /** A reported comparison in a sum comes from one of its names. */
  lemma {:induction false} TotalMember(m: map<string, Tally>, names: set<string>, r: Comparison) returns (k: string)
    requires names <= m.Keys && r in Total(m, names).report
    ensures k in names && r in m[k].report
    decreases |names|
  {
    var j :| j in names;
    TotalSplit(m, names, j);
    if r in m[j].report {
      k := j;
    } else {
      k := TotalMember(m, names - {j}, r);
    }
  }

  /** A sum of tallies that report nothing reports nothing. */
  lemma {:induction false} TotalQuiet(m: map<string, Tally>, names: set<string>)
    requires names <= m.Keys
    requires forall k | k in names :: m[k].report == multiset{}
    ensures Total(m, names).report == multiset{}
    decreases |names|
  {
    if names != {} {
      var j :| j in names;
      TotalSplit(m, names, j);
      TotalQuiet(m, names - {j});
    }
  }

  /** A reported comparison in a sum comes from one of its tallies. */
  lemma {:induction false} SumMember(ts: seq<Tally>, r: Comparison) returns (i: nat)
    requires r in SumTallies(ts).report
    ensures i < |ts| && r in ts[i].report
    decreases |ts|
  {
    var init := ts[..|ts| - 1];
    if r in SumTallies(init).report {
      i := SumMember(init, r);
    } else {
      i := |ts| - 1;
    }
  }

  /** A sum of tallies that report nothing reports nothing. */
  lemma {:induction false} SumQuiet(ts: seq<Tally>)
    requires forall i | 0 <= i < |ts| :: ts[i].report == multiset{}
    ensures SumTallies(ts).report == multiset{}
    decreases |ts|
  {
    if ts != [] {
      SumQuiet(ts[..|ts| - 1]);
    }
  }

  /* ---------------------------------------------------------------------- *
   * One comparison at a time.                                              *
   * ---------------------------------------------------------------------- */

  /** The null guard: two nulls are skipped, one null is reported. */
  lemma NullGuard(eng: Engine, env: Env, x: Node)
    ensures Mismatches(eng, env, None, None) == multiset{}
    ensures Mismatches(eng, env, Some(x), None) == multiset{Root(Some(x), None)}
    ensures Mismatches(eng, env, None, Some(x)) == multiset{Root(None, Some(x))}
  {
  }

  /** A script's verdict decides the comparison: SUCCESS reports nothing and
      queues nothing, FAILURE (and a script exception) reports exactly this
      comparison, and any other value is matched in place of the script. */
  lemma ScriptOutcomes(eng: Engine, env: Env, c: Comparison, body: string)
    requires c.expected.Some? && c.actual.Some? && Script(c.expected.value) == Some(body)
    ensures Evaluate(eng, Bind(env, c.actual.value), body) == SuccessSentinel ==> Walk(eng, env, c) == Tally(1, multiset{})
    ensures Evaluate(eng, Bind(env, c.actual.value), body) == FailureSentinel ==> Walk(eng, env, c) == Tally(1, multiset{c})
    ensures eng(Bind(env, c.actual.value), body).Threw? ==> Walk(eng, env, c) == Tally(1, multiset{c})
    ensures forall n :: Evaluate(eng, Bind(env, c.actual.value), body) == Data(n) ==>
              Walk(eng, env, c) == Tally(1, multiset{}).Plus(Judge(eng, env, c.(expected := Some(n))))
  {
  }

  /** A scalar expected value (no script) is reported exactly once or not at all,
      and it is accepted exactly when the kinds agree and the number rule or
      plain equality holds. */
  lemma ScalarVerdict(eng: Engine, env: Env, c: Comparison)
    requires c.expected.Some? && c.actual.Some?
    requires Script(c.expected.value).None? && IsValueNode(c.expected.value)
    ensures Walk(eng, env, c).report == multiset{} || Walk(eng, env, c).report == multiset{c}
    ensures var e, a := c.expected.value, c.actual.value;
            Walk(eng, env, c).report == multiset{} <==>
              TypeOf(e) == TypeOf(a) && (if e.Num? then NumbersMatch(e.n, a.n) else a == e)
  {
  }

  /** Nodes of different kinds are reported exactly once, and nothing below them is queued. */
  lemma KindMismatch(eng: Engine, env: Env, c: Comparison)
    requires c.expected.Some? && c.actual.Some? && Script(c.expected.value).None?
    requires TypeOf(c.expected.value) != TypeOf(c.actual.value)
    ensures Walk(eng, env, c) == Tally(1, multiset{c})
  {
  }

  /** Arrays of different lengths are reported once, at the array, and nothing is
      queued; arrays of equal length queue one comparison per index. */
  lemma ArrayLengths(eng: Engine, env: Env, c: Comparison)
    requires c.expected.Some? && c.actual.Some? && c.expected.value.Arr? && c.actual.value.Arr?
    ensures |c.expected.value.elems| != |c.actual.value.elems| ==> Walk(eng, env, c) == Tally(1, multiset{c})
    ensures |c.expected.value.elems| == |c.actual.value.elems| ==>
              Walk(eng, env, c) == Tally(1, multiset{}).Plus(Elements(eng, env, c, |c.expected.value.elems|))
  {
  }

  /* ---------------------------------------------------------------------- *
   * A tree matches itself.                                                 *
   * ---------------------------------------------------------------------- */

  /** A comparison of a script-free, Missing-free tree with itself reports
      nothing, whatever the policy. */
  lemma {:induction false} SelfWalk(eng: Engine, env: Env, c: Comparison)
    requires c.expected.Some? && c.actual == c.expected
    requires ScriptFree(c.expected.value) && NoMissing(c.expected.value)
    ensures Walk(eng, env, c).report == multiset{}
    decreases Rank(c), ActualOf(c), 2, 0
  {
    SelfJudge(eng, env, c);
  }

  lemma {:induction false} SelfJudge(eng: Engine, env: Env, c: Comparison)
    requires c.expected.Some? && c.actual == c.expected
    requires ScriptFree(c.expected.value) && NoMissing(c.expected.value)
    ensures Judge(eng, env, c).report == multiset{}
    decreases Rank(c), ActualOf(c), 1, 0
  {
    var e := c.expected.value;
    match e
    case Arr(es) => SelfElements(eng, env, c, |es|);
    case Obj(m) =>
      var d := if "**" in m then SetExtra(c, m["**"]) else c;
      SelfFields(eng, env, d, m.Keys - {"*", "**"});
      assert m.Keys - m.Keys == {};
    case _ =>
  }

  lemma {:induction false} SelfElements(eng: Engine, env: Env, c: Comparison, n: nat)
    requires c.expected.Some? && c.actual == c.expected && c.actual.value.Arr? && n <= |c.actual.value.elems|
    requires ScriptFree(c.expected.value) && NoMissing(c.expected.value)
    ensures Elements(eng, env, c, n).report == multiset{}
    decreases Rank(c), ActualOf(c), 0, 0
  {
    var es := c.actual.value.elems;
    var ts := ElementTallies(eng, env, c, n);
    forall i | 0 <= i < n
      ensures ts[i].report == multiset{}
    {
      assert es[i] in es;
      SelfWalk(eng, env, ElementAt(c, i));
    }
    SumQuiet(ts);
  }

  lemma {:induction false} SelfFields(eng: Engine, env: Env, c: Comparison, names: set<string>)
    requires c.expected.Some? && c.actual == c.expected && c.actual.value.Obj?
    requires names <= c.actual.value.fields.Keys
    requires ScriptFree(c.expected.value) && NoMissing(c.expected.value)
    ensures Fields(eng, env, c, names).report == multiset{}
    decreases Rank(c), ActualOf(c), 0, 1
  {
    var m := c.actual.value.fields;
    var tallies := FieldTallies(eng, env, c, names);
    forall k | k in names
      ensures tallies[k].report == multiset{}
    {
      assert m[k] in m.Values;
      SelfWalk(eng, env, FieldAt(c, k));
    }
    TotalQuiet(tallies, names);
  }

  /** Comparing a script-free tree with itself gives an empty report. */
  lemma SelfComparison(eng: Engine, env: Env, n: Node)
    requires ScriptFree(n) && NoMissing(n)
    ensures Mismatches(eng, env, Some(n), Some(n)) == multiset{}
  {
    SelfWalk(eng, env, Root(Some(n), Some(n)));
  }

  /* ---------------------------------------------------------------------- *
   * Every report entry is a genuine mismatch at the place it names.        *
   * ---------------------------------------------------------------------- */

  /** The local mismatches the structural rules report. */
  predicate Conflict(e: Node, a: Node) {
    TypeOf(e) != TypeOf(a)
    || (e.Num? && a.Num? && !NumbersMatch(e.n, a.n))
    || (IsValueNode(e) && !e.Num? && a != e)
    || (e.Arr? && a.Arr? && |e.elems| != |a.elems|)
    || (e.Missing? && a.Missing?)
  }

  /** `r` fails on its own: exactly one side is null, its script fails, or its
      two sides conflict. */
  ghost predicate LocalFailure(eng: Engine, env: Env, r: Comparison) {
    match (r.expected, r.actual)
    case (Some(e), Some(a)) =>
      (Script(e).Some? && Evaluate(eng, Bind(env, a), Script(e).value) == FailureSentinel) || Conflict(e, a)
    case (None, None) => false
    case _ => true
  }

  /** The actual side of `c` is what tree `t` holds at c's path, or Missing where
      the path does not exist in `t`. */
  predicate Tracks(t: Node, c: Comparison) {
    c.actual == Some(At(t, c.path).GetOr(Missing))
  }

  ghost predicate Sound(eng: Engine, env: Env, t: Node, c: Comparison, r: Comparison) {
    LocalFailure(eng, env, r) && c.path <= r.path && (Tracks(t, c) ==> Tracks(t, r))
  }

  /** A field comparison follows its object into the tree. */
  lemma FieldTracks(t: Node, c: Comparison, k: string)
    requires c.expected.Some? && c.actual.Some? && Tracks(t, c)
    ensures Tracks(t, FieldAt(c, k))
  {
    AtSnoc(t, c.path, Key(k));
  }

  lemma ElementTracks(t: Node, c: Comparison, i: nat)
    requires c.expected.Some? && c.actual.Some? && c.actual.value.Arr? && i < |c.actual.value.elems| && Tracks(t, c)
    ensures Tracks(t, ElementAt(c, i))
  {
    AtSnoc(t, c.path, Index(i));
  }

  lemma {:induction false} WalkSound(eng: Engine, env: Env, t: Node, c: Comparison, r: Comparison)
    requires r in Walk(eng, env, c).report
    ensures Sound(eng, env, t, c, r)
    decreases Rank(c), ActualOf(c), 2, 0
  {
    if c.expected.Some? && c.actual.Some? {
      var body := Script(c.expected.value);
      if body.None? {
        JudgeSound(eng, env, t, c, r);
      } else {
        match Evaluate(eng, Bind(env, c.actual.value), body.value)
        case SuccessSentinel =>
        case FailureSentinel =>
        case Data(n) => JudgeSound(eng, env, t, c.(expected := Some(n)), r);
      }
    }
  }

  lemma {:induction false} JudgeSound(eng: Engine, env: Env, t: Node, c: Comparison, r: Comparison)
    requires c.expected.Some? && c.actual.Some?
    requires r in Judge(eng, env, c).report
    ensures Sound(eng, env, t, c, r)
    decreases Rank(c), ActualOf(c), 1, 0
  {
    var e, a := c.expected.value, c.actual.value;
    if TypeOf(e) != TypeOf(a) || e.Num? || IsValueNode(e) {
    } else if e.Arr? {
      if |e.elems| == |a.elems| {
        var i := ElementsMember(eng, env, c, |e.elems|, r);
        ElementSound(eng, env, t, c, i, r);
      }
    } else if e.Obj? {
      ObjectSound(eng, env, t, c, r);
    }
  }

  lemma {:induction false} ObjectSound(eng: Engine, env: Env, t: Node, c: Comparison, r: Comparison)
    requires c.expected.Some? && c.actual.Some? && c.expected.value.Obj? && c.actual.value.Obj?
    requires r in Judge(eng, env, c).report
    ensures Sound(eng, env, t, c, r)
    decreases Rank(c), ActualOf(c), 0, 2
  {
    var e, a := c.expected.value, c.actual.value;
    var d := if "**" in e.fields then SetExtra(c, e.fields["**"]) else c;
    var own, others := e.fields.Keys - {"*", "**"}, a.fields.Keys - e.fields.Keys;
    if r in Fields(eng, env, d, own).report {
      FieldsSound(eng, env, t, d, own, r);
    } else {
      FieldsSound(eng, env, t, d, others, r);
    }
  }

  /** A comparison reported among the element comparisons was reported by one of them. */
  lemma ElementsMember(eng: Engine, env: Env, c: Comparison, n: nat, r: Comparison) returns (i: nat)
    requires c.expected.Some? && c.actual.Some? && c.actual.value.Arr? && n <= |c.actual.value.elems|
    requires r in Elements(eng, env, c, n).report
    ensures i < n && r in Walk(eng, env, ElementAt(c, i)).report
  {
    i := SumMember(ElementTallies(eng, env, c, n), r);
  }

  lemma {:induction false} ElementSound(eng: Engine, env: Env, t: Node, c: Comparison, i: nat, r: Comparison)
    requires c.expected.Some? && c.actual.Some? && c.actual.value.Arr? && i < |c.actual.value.elems|
    requires r in Walk(eng, env, ElementAt(c, i)).report
    ensures Sound(eng, env, t, c, r)
    decreases Rank(c), ActualOf(c), 0, 0
  {
    var es := c.actual.value.elems;
    assert es[i] in es;
    var kid := ElementAt(c, i);
    WalkSound(eng, env, t, kid, r);
    if Tracks(t, c) {
      ElementTracks(t, c, i);
    }
    SoundThroughKid(eng, env, t, c, kid, r);
  }

  lemma {:induction false} FieldsSound(eng: Engine, env: Env, t: Node, c: Comparison, names: set<string>, r: Comparison)
    requires c.expected.Some? && c.actual.Some? && c.actual.value.Obj?
    requires r in Fields(eng, env, c, names).report
    ensures Sound(eng, env, t, c, r)
    decreases Rank(c), ActualOf(c), 0, 1
  {
    var m := c.actual.value.fields;
    var k := TotalMember(FieldTallies(eng, env, c, names), names, r);
    assert k in m ==> m[k] in m.Values;
    var kid := FieldAt(c, k);
    WalkSound(eng, env, t, kid, r);
    if Tracks(t, c) {
      FieldTracks(t, c, k);
    }
    SoundThroughKid(eng, env, t, c, kid, r);
  }

  /** What holds of a report against a child comparison holds against its parent. */
  lemma SoundThroughKid(eng: Engine, env: Env, t: Node, c: Comparison, kid: Comparison, r: Comparison)
    requires Sound(eng, env, t, kid, r) && c.path <= kid.path
    requires Tracks(t, c) ==> Tracks(t, kid)
    ensures Sound(eng, env, t, c, r)
  {
  }

  /** Every comparison compareNodes reports is a genuine local mismatch, and its
      actual side is the node the actual tree holds at its path (or Missing). */
  lemma MismatchesAreGenuine(eng: Engine, env: Env, expected: Node, actual: Node, r: Comparison)
    requires r in Mismatches(eng, env, Some(expected), Some(actual))
    ensures LocalFailure(eng, env, r)
    ensures r.actual == Some(At(actual, r.path).GetOr(Missing))
  {
    WalkSound(eng, env, actual, Root(Some(expected), Some(actual)), r);
  }

  /** An object comparison is never reported itself; an array comparison only
      when the lengths differ. */
  lemma ContainersDelegate(eng: Engine, env: Env, expected: Node, actual: Node, r: Comparison)
    requires r in Mismatches(eng, env, Some(expected), Some(actual))
    ensures !(r.expected.Some? && r.expected.value.Obj? && r.actual.Some? && r.actual.value.Obj?)
    ensures r.expected.Some? && r.expected.value.Arr? && r.actual.Some? && r.actual.value.Arr? ==>
              |r.expected.value.elems| != |r.actual.value.elems|
  {
    MismatchesAreGenuine(eng, env, expected, actual, r);
    ContainerFailure(eng, env, r);
  }

  /** Two objects never fail on their own; two arrays only when their lengths differ. */
  lemma ContainerFailure(eng: Engine, env: Env, r: Comparison)
    requires LocalFailure(eng, env, r)
    ensures !(r.expected.Some? && r.expected.value.Obj? && r.actual.Some? && r.actual.value.Obj?)
    ensures r.expected.Some? && r.expected.value.Arr? && r.actual.Some? && r.actual.value.Arr? ==>
              |r.expected.value.elems| != |r.actual.value.elems|
  {
  }

  /* ---------------------------------------------------------------------- *
   * Actual-only fields and the policy.                                     *
   * ---------------------------------------------------------------------- */

  /** The script always evaluates to SUCCESS, whatever the bindings. */
  ghost predicate AlwaysSucceeds(eng: Engine, body: string) {
    forall env :: eng(env, body) == Returned(SuccessSentinel)
  }

  /** When the object has neither `*` nor `**` and the inherited policy succeeds,
      actual-only fields add nothing: only the expected fields are checked. */
  lemma ExtraFieldsAccepted(eng: Engine, env: Env, c: Comparison, body: string)
    requires c.expected.Some? && c.expected.value.Obj? && c.actual.Some? && c.actual.value.Obj?
    requires "*" !in c.expected.value.fields && "**" !in c.expected.value.fields
    requires Script(c.extra) == Some(body) && AlwaysSucceeds(eng, body)
    ensures Walk(eng, env, c).report == Fields(eng, env, c, c.expected.value.fields.Keys).report
  {
    var e, a := c.expected.value.fields, c.actual.value.fields;
    var others := a.Keys - e.Keys;
    var tallies := FieldTallies(eng, env, c, others);
    forall k | k in others
      ensures tallies[k].report == multiset{}
    {
      var kid := FieldAt(c, k);
      assert tallies[k] == Walk(eng, env, kid);
      assert kid.expected == Some(c.extra) && kid.actual == Some(a[k]);
      assert eng(Bind(env, a[k]), body) == Returned(SuccessSentinel);
      assert Evaluate(eng, Bind(env, a[k]), body) == SuccessSentinel;
    }
    TotalQuiet(tallies, others);
    assert e.Keys - {"*", "**"} == e.Keys;
    assert Walk(eng, env, c).report == Judge(eng, env, c).report;
  }

  /** The script evaluates to FAILURE, or throws, whatever the bindings. */
  ghost predicate AlwaysFails(eng: Engine, body: string) {
    forall env :: Evaluate(eng, env, body) == FailureSentinel
  }

  /** When the object's `*` field is a script that always fails and there is no
      `**`, every actual-only field is reported exactly once, at its own path:
      the object admits no extra fields. */
  lemma ExtraFieldsRejected(eng: Engine, env: Env, c: Comparison, body: string)
    requires c.expected.Some? && c.expected.value.Obj? && c.actual.Some? && c.actual.value.Obj?
    requires var e := c.expected.value.fields;
             "*" in e && "**" !in e && Script(e["*"]) == Some(body) && AlwaysFails(eng, body)
    ensures forall k | k in c.actual.value.fields.Keys - c.expected.value.fields.Keys ::
              && FieldAt(c, k).path == c.path + [Key(k)]
              && Walk(eng, env, c).report[FieldAt(c, k)] == 1
  {
    var e, a := c.expected.value.fields, c.actual.value.fields;
    var own, others := e.Keys - {"*", "**"}, a.Keys - e.Keys;
    assert Walk(eng, env, c).report
        == Fields(eng, env, c, own).report + Fields(eng, env, c, others).report;
    forall k | k in others
      ensures Walk(eng, env, c).report[FieldAt(c, k)] == 1
    {
      OwnFieldsMiss(eng, env, c, own, k);
      ExtraFieldOnce(eng, env, c, body, others, k);
    }
  }

  /** An extra field's comparison is a failing `*` script: reported by itself. */
  lemma ExtraFieldFails(eng: Engine, env: Env, c: Comparison, body: string, k: string)
    requires c.expected.Some? && c.expected.value.Obj? && c.actual.Some? && c.actual.value.Obj?
    requires var e := c.expected.value.fields;
             "*" in e && Script(e["*"]) == Some(body) && AlwaysFails(eng, body)
    requires k in c.actual.value.fields && k !in c.expected.value.fields
    ensures Walk(eng, env, FieldAt(c, k)) == Tally(1, multiset{FieldAt(c, k)})
  {
    var kid := FieldAt(c, k);
    assert kid.expected == Some(c.expected.value.fields["*"]);
    assert Evaluate(eng, Bind(env, kid.actual.value), body) == FailureSentinel;
  }

  /** Among the extra-field comparisons, field `k`'s is reported once. */
  lemma ExtraFieldOnce(eng: Engine, env: Env, c: Comparison, body: string, others: set<string>, k: string)
    requires c.expected.Some? && c.expected.value.Obj? && c.actual.Some? && c.actual.value.Obj?
    requires var e := c.expected.value.fields;
             "*" in e && Script(e["*"]) == Some(body) && AlwaysFails(eng, body)
    requires others == c.actual.value.fields.Keys - c.expected.value.fields.Keys && k in others
    ensures Fields(eng, env, c, others).report[FieldAt(c, k)] == 1
  {
    var tallies := FieldTallies(eng, env, c, others);
    var kid := FieldAt(c, k);
    TotalSplit(tallies, others, k);
    ExtraFieldFails(eng, env, c, body, k);
    assert tallies[k].report == multiset{kid};
    OtherExtrasMiss(eng, env, c, body, others, k);
    var rest := Total(tallies, others - {k});
    assert Fields(eng, env, c, others).report == rest.report + multiset{kid};
  }

  /** No other extra field's comparison reports field `k`'s place. */
  lemma OtherExtrasMiss(eng: Engine, env: Env, c: Comparison, body: string, others: set<string>, k: string)
    requires c.expected.Some? && c.expected.value.Obj? && c.actual.Some? && c.actual.value.Obj?
    requires var e := c.expected.value.fields;
             "*" in e && Script(e["*"]) == Some(body) && AlwaysFails(eng, body)
    requires others == c.actual.value.fields.Keys - c.expected.value.fields.Keys && k in others
    ensures Total(FieldTallies(eng, env, c, others), others - {k}).report[FieldAt(c, k)] == 0
  {
    var tallies := FieldTallies(eng, env, c, others);
    var kid := FieldAt(c, k);
    if kid in Total(tallies, others - {k}).report {
      var j := TotalMember(tallies, others - {k}, kid);
      ExtraTallyMember(eng, env, c, body, others, j, kid);
      FieldPlacesDiffer(c, j, k);
      assert false;
    }
  }

  lemma ExtraTallyMember(eng: Engine, env: Env, c: Comparison, body: string, others: set<string>, j: string, r: Comparison)
    requires c.expected.Some? && c.expected.value.Obj? && c.actual.Some? && c.actual.value.Obj?
    requires var e := c.expected.value.fields;
             "*" in e && Script(e["*"]) == Some(body) && AlwaysFails(eng, body)
    requires others == c.actual.value.fields.Keys - c.expected.value.fields.Keys && j in others
    requires r in FieldTallies(eng, env, c, others)[j].report
    ensures r == FieldAt(c, j)
  {
    ExtraFieldFails(eng, env, c, body, j);
    assert FieldTallies(eng, env, c, others)[j] == Walk(eng, env, FieldAt(c, j));
  }

  /** Two different fields are compared at different places. */
  lemma FieldPlacesDiffer(c: Comparison, j: string, k: string)
    requires c.expected.Some? && c.actual.Some? && j != k
    ensures FieldAt(c, j) != FieldAt(c, k)
  {
    assert FieldAt(c, j).path[|c.path|] == Key(j);
  }

  /** The comparisons queued for the expected fields never report an extra field's place. */
  lemma OwnFieldsMiss(eng: Engine, env: Env, c: Comparison, own: set<string>, k: string)
    requires c.expected.Some? && c.actual.Some? && c.actual.value.Obj?
    requires k !in own
    ensures Fields(eng, env, c, own).report[FieldAt(c, k)] == 0
  {
    var kid := FieldAt(c, k);
    if kid in Fields(eng, env, c, own).report {
      var j := TotalMember(FieldTallies(eng, env, c, own), own, kid);
      OwnFieldReport(eng, env, c, own, j, kid);
      assert false;
    }
  }

  /** What a field's comparison reports lies below that field's place. */
  lemma OwnFieldReport(eng: Engine, env: Env, c: Comparison, own: set<string>, j: string, r: Comparison)
    requires c.expected.Some? && c.actual.Some? && c.actual.value.Obj? && j in own
    requires r in FieldTallies(eng, env, c, own)[j].report
    ensures |r.path| > |c.path| && r.path[|c.path|] == Key(j)
  {
    var jc := FieldAt(c, j);
    assert FieldTallies(eng, env, c, own)[j] == Walk(eng, env, jc);
    WalkSound(eng, env, Null, jc, r);
    assert r.path[..|jc.path|] == jc.path;
  }

  /** A `**` field replaces the policy for every field comparison queued from
      this object, and through them for the whole subtree. */
  lemma StarStarPolicy(eng: Engine, env: Env, c: Comparison, k: string)
    requires c.expected.Some? && c.expected.value.Obj? && c.actual.Some? && c.actual.value.Obj?
    requires "**" in c.expected.value.fields
    ensures var e := c.expected.value.fields;
            var d := SetExtra(c, e["**"]);
            Walk(eng, env, c) == Tally(1, multiset{}).Plus(
              Fields(eng, env, d, e.Keys - {"*", "**"}).Plus(Fields(eng, env, d, c.actual.value.fields.Keys - e.Keys)))
            && FieldAt(d, k).extra == e["**"]
            && (k !in e && "*" !in e ==> FieldAt(d, k).expected == Some(e["**"]))
  {
  }

  /** An object expecting one field the actual object lacks reports exactly that
      field, against Missing, when the policy accepts the actual-only fields. */
  lemma OnlyMissingFieldReported(eng: Engine, env: Env, c: Comparison, k: string, body: string)
    requires c.expected.Some? && c.expected.value.Obj? && c.actual.Some? && c.actual.value.Obj?
    requires c.expected.value.fields.Keys == {k} && k != "*" && k != "**" && k !in c.actual.value.fields
    requires var x := c.expected.value.fields[k]; Script(x).None? && !x.Missing?
    requires Script(c.extra) == Some(body) && AlwaysSucceeds(eng, body)
    ensures Walk(eng, env, c).report == multiset{FieldAt(c, k)}
  {
    ExtraFieldsAccepted(eng, env, c, body);
    var tallies := FieldTallies(eng, env, c, {k});
    TotalSplit(tallies, {k}, k);
    assert {k} - {k} == {};
    var kid := FieldAt(c, k);
    assert tallies[k] == Walk(eng, env, kid);
    KindMismatch(eng, env, kid);
  }

  /** Expected {"a": 1} against actual {"b": 2} under the default policy: only the
      missing field /a is reported; the extra field /b is accepted. */
  lemma MissingAndExtraField(eng: Engine, env: Env)
    requires AlwaysSucceeds(eng, "success")
    ensures var one, two := Num(Integral(1, Int32)), Num(Integral(2, Int32));
            Mismatches(eng, env, Some(Obj(map["a" := one])), Some(Obj(map["b" := two])))
              == multiset{Comparison([Key("a")], Some(one), Some(Missing), DefaultPolicy)}
  {
    var one, two := Num(Integral(1, Int32)), Num(Integral(2, Int32));
    var c := Root(Some(Obj(map["a" := one])), Some(Obj(map["b" := two])));
    assert map["a" := one].Keys == {"a"};
    assert "a" !in map["b" := two];
    OnlyMissingFieldReported(eng, env, c, "a", "success");
    assert FieldAt(c, "a") == Comparison([Key("a")], Some(one), Some(Missing), DefaultPolicy);
  }
}
