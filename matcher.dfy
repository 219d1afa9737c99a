/**
 * The structural matcher: Comparison records and the specification of what
 * compareNodes reports. `Walk` is the recursive reading of the work-list
 * loop: it returns how many comparisons the loop pops for one comparison
 * (itself and everything queued below it) and the multiset of comparisons
 * it reports.
 */
module Matcher {
  import opened Wrappers
  import opened Json
  import opened Scripts

  /** One pending check: the path reached, both sides (None is a Java null),
      and the policy that judges actual fields the expected object lacks. */
  datatype Comparison = Comparison(path: Path, expected: Option<Node>, actual: Option<Node>, extra: Node)

  /** The policy every comparison starts with. */
  const DefaultPolicy: Node := Text("${success}")

  /** The root comparison of compareNodes: empty path, default policy. */
  function Root(expected: Option<Node>, actual: Option<Node>): (c: Comparison)
    ensures c.path == [] && c.expected == expected && c.actual == actual
    ensures Script(c.extra) == Some("success")
  {
    ScriptOfWrap("success");
    assert DefaultPolicy == Text(Wrap("success"));
    Comparison([], expected, actual, DefaultPolicy)
  }

  /** Comparison.get(int): both sides step to element `i` (null where there is none). */
  function ElementAt(c: Comparison, i: nat): (r: Comparison)
    requires c.expected.Some? && c.actual.Some?
    ensures r.path == c.path + [Index(i)] && r.extra == c.extra
    ensures r.expected == Child(c.expected.value, Index(i))
    ensures r.actual == Child(c.actual.value, Index(i))
  {
    Comparison(c.path + [Index(i)], Child(c.expected.value, Index(i)), Child(c.actual.value, Index(i)), c.extra)
  }

  /** The expected side for field `name`: the field itself, else the `*` field, else the policy. */
  function ExpectedField(e: Node, name: string, policy: Node): Node {
    match Child(e, Key(name))
    case Some(x) => x
    case None =>
      match Child(e, Key("*"))
      case Some(y) => y
      case None => policy
  }

  /** Comparison.get(String): the expected side falls back to `*` and then to the
      policy; an absent actual field becomes Missing. */
  function FieldAt(c: Comparison, name: string): (r: Comparison)
    requires c.expected.Some? && c.actual.Some?
    ensures r.path == c.path + [Key(name)] && r.extra == c.extra
    ensures r.expected.Some? && r.actual.Some?
    ensures c.expected.value.Obj? && name in c.expected.value.fields ==> r.expected == Some(c.expected.value.fields[name])
    ensures c.expected.value.Obj? && name !in c.expected.value.fields && "*" in c.expected.value.fields
            ==> r.expected == Some(c.expected.value.fields["*"])
    ensures c.expected.value.Obj? && name !in c.expected.value.fields && "*" !in c.expected.value.fields
            ==> r.expected == Some(c.extra)
    ensures c.actual.value.Obj? ==>
              r.actual == Some(if name in c.actual.value.fields then c.actual.value.fields[name] else Missing)
  {
    Comparison(c.path + [Key(name)], Some(ExpectedField(c.expected.value, name, c.extra)),
               Some(Child(c.actual.value, Key(name)).GetOr(Missing)), c.extra)
  }

  /** Comparison.setExtra: replaces the policy and nothing else. */
  function SetExtra(c: Comparison, policy: Node): (r: Comparison)
    ensures r.extra == policy
    ensures r.path == c.path && r.expected == c.expected && r.actual == c.actual
  {
    c.(extra := policy)
  }

  /**
   * The two-tier number rule: both convert to a 64-bit long with equal
   * values, or the two numbers are equal as Jackson nodes.
   */
  predicate NumbersMatch(e: Number, a: Number) {
    (CanConvertToLong(e) && CanConvertToLong(a) && e.value == a.value) || a == e
  }

  /* ---------------------------------------------------------------------- *
   * The specification of the work-list loop.                               *
   * ---------------------------------------------------------------------- */

  /** Comparisons popped, and comparisons reported. */
  datatype Tally = Tally(visits: nat, report: multiset<Comparison>) {
    function Plus(other: Tally): Tally {
      Tally(visits + other.visits, report + other.report)
    }
  }

  const Quiet: Tally := Tally(0, multiset{})

  function Flag(c: Comparison): Tally {
    Tally(0, multiset{c})
  }

  /** A comparison whose actual side is Missing never queues anything. */
  function Rank(c: Comparison): nat {
    if c.actual == Some(Missing) then 0 else 1
  }

  function ActualOf(c: Comparison): Node {
    c.actual.GetOr(Null)
  }

  /** Before a script runs, the actual node is bound to `actual`. */
  function Bind(env: Env, a: Node): Env {
    env[ActualVar := a]
  }

  /** What the loop does with comparison `c` and everything it queues. */
  ghost function Walk(eng: Engine, env: Env, c: Comparison): (t: Tally)
    ensures t.visits >= 1
    decreases Rank(c), ActualOf(c), 2, 0
  {
    if c.expected.None? || c.actual.None? then
      Tally(1, if c.expected.Some? || c.actual.Some? then multiset{c} else multiset{})
    else
      var a := c.actual.value;
      var body := Script(c.expected.value);
      if body.None? then
        Tally(1, multiset{}).Plus(Judge(eng, env, c))
      else
        match Evaluate(eng, Bind(env, a), body.value)
        case SuccessSentinel => Tally(1, multiset{})
        case FailureSentinel => Tally(1, multiset{c})
        case Data(n) => Tally(1, multiset{}).Plus(Judge(eng, env, c.(expected := Some(n))))
  }

  /** The kind, number, value, array and object rules applied to `c` as it stands. */
  ghost function Judge(eng: Engine, env: Env, c: Comparison): Tally
    requires c.expected.Some? && c.actual.Some?
    decreases Rank(c), ActualOf(c), 1, 0
  {
    var e, a := c.expected.value, c.actual.value;
    if TypeOf(e) != TypeOf(a) then Flag(c)
    else if e.Num? then
      if NumbersMatch(e.n, a.n) then Quiet else Flag(c)
    else if IsValueNode(e) then
      if a == e then Quiet else Flag(c)
    else if e.Arr? then
      if |e.elems| == |a.elems| then Elements(eng, env, c, |e.elems|) else Flag(c)
    else if e.Obj? then
      var d := if "**" in e.fields then SetExtra(c, e.fields["**"]) else c;
      Fields(eng, env, d, e.fields.Keys - {"*", "**"}).Plus(Fields(eng, env, d, a.fields.Keys - e.fields.Keys))
    else Flag(c)
  }

  /** The element comparisons at indices 0 .. n-1, in queue order. */
  ghost function Elements(eng: Engine, env: Env, c: Comparison, n: nat): Tally
    requires c.expected.Some? && c.actual.Some? && c.actual.value.Arr? && n <= |c.actual.value.elems|
    decreases Rank(c), ActualOf(c), 0, 1
  {
    SumTallies(ElementTallies(eng, env, c, n))
  }

  /** The tally of each element comparison, by index. */
  ghost function ElementTallies(eng: Engine, env: Env, c: Comparison, n: nat): (ts: seq<Tally>)
    requires c.expected.Some? && c.actual.Some? && c.actual.value.Arr? && n <= |c.actual.value.elems|
    ensures |ts| == n
    decreases Rank(c), ActualOf(c), 0, 0
  {
    var a := c.actual.value;
    seq(n, i requires 0 <= i < n => (assert a.elems[i] in a.elems; Walk(eng, env, ElementAt(c, i))))
  }

  /** The sum of a sequence of tallies. */
  function SumTallies(ts: seq<Tally>): Tally {
    if ts == [] then Quiet else SumTallies(ts[..|ts| - 1]).Plus(ts[|ts| - 1])
  }

  /** The field comparisons for a set of names (the order is not observable in a Tally). */
  ghost function Fields(eng: Engine, env: Env, c: Comparison, names: set<string>): Tally
    requires c.expected.Some? && c.actual.Some? && c.actual.value.Obj?
    decreases Rank(c), ActualOf(c), 0, 1
  {
    Total(FieldTallies(eng, env, c, names), names)
  }

  /** The tally of each field comparison, by name. */
  ghost function FieldTallies(eng: Engine, env: Env, c: Comparison, names: set<string>): (m: map<string, Tally>)
    requires c.expected.Some? && c.actual.Some? && c.actual.value.Obj?
    ensures m.Keys == names
    decreases Rank(c), ActualOf(c), 0, 0
  {
    var a := c.actual.value;
    map k | k in names :: (assert k in a.fields ==> a.fields[k] in a.fields.Values; Walk(eng, env, FieldAt(c, k)))
  }

  /** The sum of the tallies for a set of names. */
  ghost function Total(m: map<string, Tally>, names: set<string>): Tally
    requires names <= m.Keys
    decreases |names|
  {
    if names == {} then Quiet
    else
      var k :| k in names;
      Total(m, names - {k}).Plus(m[k])
  }

  /** The report of compareNodes(expected, actual), as a multiset. */
  ghost function Mismatches(eng: Engine, env: Env, expected: Option<Node>, actual: Option<Node>): multiset<Comparison> {
    Walk(eng, env, Root(expected, actual)).report
  }

  /** Everything still on the work-list. */
  ghost function Pending(eng: Engine, env: Env, q: seq<Comparison>): Tally {
    if q == [] then Quiet else Walk(eng, env, q[0]).Plus(Pending(eng, env, q[1..]))
  }

  /** Appending to the work-list adds the appended comparisons' tallies. */
  lemma {:induction false} PendingAppend(eng: Engine, env: Env, p: seq<Comparison>, q: seq<Comparison>)
    ensures Pending(eng, env, p + q) == Pending(eng, env, p).Plus(Pending(eng, env, q))
    decreases |p|
  {
    if p == [] {
      assert p + q == q;
    } else {
      assert (p + q)[0] == p[0] && (p + q)[1..] == p[1..] + q;
      PendingAppend(eng, env, p[1..], q);
    }
  }

  lemma PendingOne(eng: Engine, env: Env, c: Comparison)
    ensures Pending(eng, env, [c]) == Walk(eng, env, c)
  {
    assert [c][1..] == [];
  }

  /** Which name the fold picks first does not matter: any member can be split off. */
  lemma {:induction false} TotalSplit(m: map<string, Tally>, names: set<string>, k: string)
    requires names <= m.Keys && k in names
    ensures Total(m, names) == Total(m, names - {k}).Plus(m[k])
    decreases |names|
  {
    var j :| j in names && Total(m, names) == Total(m, names - {j}).Plus(m[j]);
    if j != k {
      var rest := names - {j} - {k};
      assert names - {k} - {j} == rest;
      TotalSplit(m, names - {j}, k);
      TotalSplit(m, names - {k}, j);
      var t := Total(m, rest);
      assert Total(m, names) == t.Plus(m[k]).Plus(m[j]);
      assert Total(m, names - {k}) == t.Plus(m[j]);
      assert t.Plus(m[k]).Plus(m[j]) == t.Plus(m[j]).Plus(m[k]);
    }
  }

  /* ---------------------------------------------------------------------- *
   * Queueing the children of a container comparison.                       *
   * ---------------------------------------------------------------------- */

  /** One comparison per index, in index order. */
  method QueueElements(ghost eng: Engine, ghost env: Env, c: Comparison, n: nat) returns (kids: seq<Comparison>)
    requires c.expected.Some? && c.actual.Some? && c.actual.value.Arr? && n <= |c.actual.value.elems|
    ensures |kids| == n
    ensures forall i | 0 <= i < n :: kids[i] == ElementAt(c, i)
    ensures Pending(eng, env, kids) == Elements(eng, env, c, n)
  {
    kids := [];
    var i := 0;
    while i < n
      invariant 0 <= i <= n && |kids| == i
      invariant forall j | 0 <= j < i :: kids[j] == ElementAt(c, j)
      invariant Pending(eng, env, kids) == Elements(eng, env, c, i)
    {
      ElementQueued(eng, env, c, kids, i);
      kids := kids + [ElementAt(c, i)];
      i := i + 1;
    }
  }

  lemma ElementQueued(eng: Engine, env: Env, c: Comparison, kids: seq<Comparison>, i: nat)
    requires c.expected.Some? && c.actual.Some? && c.actual.value.Arr? && i < |c.actual.value.elems|
    requires Pending(eng, env, kids) == Elements(eng, env, c, i)
    ensures Pending(eng, env, kids + [ElementAt(c, i)]) == Elements(eng, env, c, i + 1)
  {
    var ts := ElementTallies(eng, env, c, i + 1);
    assert ts[..i] == ElementTallies(eng, env, c, i);
    QueueOne(eng, env, kids, ElementAt(c, i));
  }

  /** One comparison per name, in the order the names come out of the set. */
  method QueueFields(ghost eng: Engine, ghost env: Env, c: Comparison, names: set<string>) returns (kids: seq<Comparison>)
    requires c.expected.Some? && c.actual.Some? && c.actual.value.Obj?
    ensures |kids| == |names|
    ensures Pending(eng, env, kids) == Fields(eng, env, c, names)
  {
    ghost var tallies := FieldTallies(eng, env, c, names);
    kids := [];
    var rest := names;
    while rest != {}
      invariant rest <= names && |kids| + |rest| == |names|
      invariant Pending(eng, env, kids).Plus(Total(tallies, rest)) == Total(tallies, names)
      decreases rest
    {
      var k :| k in rest;
      FieldQueued(eng, env, c, names, tallies, kids, rest, k);
      kids := kids + [FieldAt(c, k)];
      rest := rest - {k};
    }
    FieldsQueued(eng, env, c, names, tallies, kids);
  }

  lemma FieldsQueued(eng: Engine, env: Env, c: Comparison, names: set<string>, tallies: map<string, Tally>, kids: seq<Comparison>)
    requires c.expected.Some? && c.actual.Some? && c.actual.value.Obj?
    requires tallies == FieldTallies(eng, env, c, names)
    requires Pending(eng, env, kids).Plus(Total(tallies, {})) == Total(tallies, names)
    ensures Pending(eng, env, kids) == Fields(eng, env, c, names)
  {
  }

  lemma FieldQueued(eng: Engine, env: Env, c: Comparison, names: set<string>, tallies: map<string, Tally>,
                    kids: seq<Comparison>, rest: set<string>, k: string)
    requires c.expected.Some? && c.actual.Some? && c.actual.value.Obj?
    requires tallies == FieldTallies(eng, env, c, names)
    requires rest <= names && k in rest
    requires Pending(eng, env, kids).Plus(Total(tallies, rest)) == Total(tallies, names)
    ensures |rest - {k}| == |rest| - 1
    ensures Pending(eng, env, kids + [FieldAt(c, k)]).Plus(Total(tallies, rest - {k})) == Total(tallies, names)
  {
    var kid := FieldAt(c, k);
    TotalSplit(tallies, rest, k);
    QueueOne(eng, env, kids, kid);
    assert tallies[k] == Walk(eng, env, kid);
    PlusSwap(Pending(eng, env, kids), Total(tallies, rest - {k}), tallies[k]);
  }

  /** The tally of a work-list after one more comparison is queued. */
  lemma QueueOne(eng: Engine, env: Env, q: seq<Comparison>, c: Comparison)
    ensures Pending(eng, env, q + [c]) == Pending(eng, env, q).Plus(Walk(eng, env, c))
  {
    PendingAppend(eng, env, q, [c]);
    PendingOne(eng, env, c);
  }

  lemma PlusSwap(x: Tally, y: Tally, z: Tally)
    ensures x.Plus(y.Plus(z)) == x.Plus(z).Plus(y)
  {
  }
}
