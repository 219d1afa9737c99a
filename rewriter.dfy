/**
 * The rewriter behind evalNode: every `${...}` leaf is replaced by what its
 * script evaluates to. `Rewrite` is the specification; editors, write-back
 * and the work-list measure below are what the loop in evalNode needs to be
 * proved against it.
 */
module Rewriter {
  import opened Wrappers
  import opened Json
  import opened Scripts

  /** The tree evalNode produces: a script leaf becomes its value; containers keep
      their indices and keys, with every child rewritten. */
  function Rewrite(eng: Engine, env: Env, n: Node): (r: Node)
    decreases n, 1
  {
    match Script(n)
    case Some(body) => AsNode(Evaluate(eng, env, body))
    case None => Descend(eng, env, n)
  }

  /** `n` with each child rewritten; sizes and key sets are preserved. */
  function Descend(eng: Engine, env: Env, n: Node): (r: Node)
    ensures TypeOf(r) == TypeOf(n)
    ensures n.Arr? ==> |r.elems| == |n.elems|
    ensures n.Obj? ==> r.fields.Keys == n.fields.Keys
    decreases n, 0
  {
    match n
    case Arr(es) => Arr(seq(|es|, i requires 0 <= i < |es| => Rewrite(eng, env, es[i])))
    case Obj(m) => Obj(map k | k in m :: Rewrite(eng, env, m[k]))
    case _ => n
  }

  /** The node an editor holds once its script, if any, has been replaced. */
  function Settle(eng: Engine, env: Env, n: Node): Node {
    match Script(n)
    case Some(body) => AsNode(Evaluate(eng, env, body))
    case None => n
  }

  /* ---------------------------------------------------------------------- *
   * What the rewrite promises.                                             *
   * ---------------------------------------------------------------------- */

  /** A tree with no script leaves is returned unchanged. */
  lemma {:induction false} RewriteScriptFree(eng: Engine, env: Env, n: Node)
    requires ScriptFree(n)
    ensures Rewrite(eng, env, n) == n
    decreases n, 1
  {
    DescendScriptFree(eng, env, n);
  }

  /** Rewriting children that hold no script leaves the node unchanged. */
  lemma {:induction false} DescendScriptFree(eng: Engine, env: Env, n: Node)
    requires ChildrenScriptFree(n)
    ensures Descend(eng, env, n) == n
    decreases n, 0
  {
    match n
    case Arr(es) =>
      forall i | 0 <= i < |es|
        ensures Rewrite(eng, env, es[i]) == es[i]
      {
        RewriteScriptFree(eng, env, es[i]);
      }
      assert Descend(eng, env, n).elems == es;
    case Obj(m) =>
      forall k | k in m
        ensures Rewrite(eng, env, m[k]) == m[k]
      {
        RewriteScriptFree(eng, env, m[k]);
      }
      assert Descend(eng, env, n).fields == m;
    case _ =>
  }

  /** A root script is replaced by its evaluation. */
  lemma RewriteRootScript(eng: Engine, env: Env, body: string)
    ensures Rewrite(eng, env, Text(Wrap(body))) ==
              if HasLineTerminator(body) then Text(Wrap(body)) else AsNode(Evaluate(eng, env, body))
  {
    ScriptOfWrap(body);
  }

  /** Every path of the input survives, at the same indices and keys, holding
      the rewrite of what it held. */
  lemma {:induction false} RewriteAt(eng: Engine, env: Env, n: Node, p: Path, x: Node)
    requires At(n, p) == Some(x)
    ensures At(Rewrite(eng, env, n), p) == Some(Rewrite(eng, env, x))
    decreases |p|
  {
    if p != [] {
      var c := Child(n, p[0]).value;
      assert Script(n).None?;
      RewriteAt(eng, env, c, p[1..], x);
    }
  }

  /** When the engine never returns a script, no script is left after rewriting. */
  lemma {:induction false} RewriteLeavesNoScript(eng: Engine, env: Env, n: Node)
    requires ResultsScriptFree(eng)
    ensures ScriptFree(Rewrite(eng, env, n))
    decreases n
  {
    if Script(n).Some? {
      if eng(env, Script(n).value).Threw? {
        assert Rewrite(eng, env, n) == Text("FAILURE");
        assert "FAILURE"[..2] == "FA";
      }
    } else {
      match n
      case Arr(es) =>
        forall i | 0 <= i < |es|
          ensures ScriptFree(Rewrite(eng, env, es[i]))
        {
          RewriteLeavesNoScript(eng, env, es[i]);
        }
      case Obj(m) =>
        forall k | k in m
          ensures ScriptFree(Rewrite(eng, env, m[k]))
        {
          RewriteLeavesNoScript(eng, env, m[k]);
        }
      case _ =>
    }
  }

  /** Rewriting twice is rewriting once, when the engine never returns a script. */
  lemma RewriteIdempotent(eng: Engine, env: Env, n: Node)
    requires ResultsScriptFree(eng)
    ensures Rewrite(eng, env, Rewrite(eng, env, n)) == Rewrite(eng, env, n)
  {
    RewriteLeavesNoScript(eng, env, n);
    RewriteScriptFree(eng, env, Rewrite(eng, env, n));
  }

  /** Descending into a settled node finishes its rewrite, when the engine's
      results hold no script below their root. */
  lemma SettleThenDescend(eng: Engine, env: Env, n: Node)
    requires ResultsInert(eng)
    ensures Descend(eng, env, Settle(eng, env, n)) == Rewrite(eng, env, n)
  {
    match Script(n)
    case Some(body) =>
      var v := Evaluate(eng, env, body);
      assert ChildrenScriptFree(AsNode(v)) by {
        if eng(env, body).Returned? {
          assert v == eng(env, body).value;
        }
      }
      DescendScriptFree(eng, env, AsNode(v));
    case None =>
  }

  /* ---------------------------------------------------------------------- *
   * Editors and write-back.                                                *
   * ---------------------------------------------------------------------- */

  /** A node together with the place it is written back to (the replacer). */
  datatype Editor = Editor(node: Node, at: Path) {
    /** Editor.get(int) / get(String): the child at `s`, written back below this editor. */
    function Get(s: Step): (r: Editor)
      requires Child(node, s).Some?
      ensures r.at == at + [s]
      ensures forall root :: At(root, at) == Some(node) ==> At(root, r.at) == Some(r.node)
    {
      forall root | At(root, at) == Some(node)
        ensures At(root, at + [s]) == Child(node, s)
      {
        AtSnoc(root, at, s);
      }
      Editor(Child(node, s).value, at + [s])
    }

    /** Editor.replace: the tree after the replacer writes `v` at this editor's place. */
    function Replace(root: Node, v: Node): (r: Node)
      requires At(root, at).Some?
      ensures At(r, at) == Some(v)
      ensures forall q :: Apart(at, q) ==> At(r, q) == At(root, q)
    {
      AtPutSame(root, at, v);
      forall q | Apart(at, q)
        ensures At(Put(root, at, v), q) == At(root, q)
      {
        AtPutApart(root, at, q, v);
      }
      Put(root, at, v)
    }
  }

  /** The tree once every pending editor has been rewritten and written back. */
  function Fill(eng: Engine, env: Env, root: Node, q: seq<Editor>): Node
    decreases |q|
  {
    if q == [] then root else Fill(eng, env, Put(root, q[0].at, Rewrite(eng, env, q[0].node)), q[1..])
  }

  lemma {:induction false} FillAppend(eng: Engine, env: Env, root: Node, p: seq<Editor>, q: seq<Editor>)
    ensures Fill(eng, env, root, p + q) == Fill(eng, env, Fill(eng, env, root, p), q)
    decreases |p|
  {
    if p == [] {
      assert p + q == q;
    } else {
      assert (p + q)[0] == p[0] && (p + q)[1..] == p[1..] + q;
      FillAppend(eng, env, Put(root, p[0].at, Rewrite(eng, env, p[0].node)), p[1..], q);
    }
  }

  predicate AllApartFrom(p: Path, q: seq<Editor>) {
    forall i | 0 <= i < |q| :: Apart(p, q[i].at)
  }

  /** A write apart from every pending editor can be done before or after them. */
  lemma {:induction false} FillPutCommute(eng: Engine, env: Env, root: Node, p: Path, v: Node, q: seq<Editor>)
    requires AllApartFrom(p, q)
    ensures Fill(eng, env, Put(root, p, v), q) == Put(Fill(eng, env, root, q), p, v)
    decreases |q|
  {
    if q != [] {
      var w := Rewrite(eng, env, q[0].node);
      PutCommutes(root, p, q[0].at, v, w);
      FillPutCommute(eng, env, Put(root, q[0].at, w), p, v, q[1..]);
    }
  }

  /** Pending editors apart from `p` leave what is at `p` alone. */
  lemma {:induction false} FillKeeps(eng: Engine, env: Env, root: Node, p: Path, q: seq<Editor>)
    requires AllApartFrom(p, q)
    ensures At(Fill(eng, env, root, q), p) == At(root, p)
    decreases |q|
  {
    if q != [] {
      var w := Rewrite(eng, env, q[0].node);
      AtPutApart(root, q[0].at, p, w);
      FillKeeps(eng, env, Put(root, q[0].at, w), p, q[1..]);
    }
  }

  /** Writing a child below a freshly written node updates that node. */
  lemma WriteBelow(base: Node, at: Path, parent: Node, s: Step, v: Node)
    requires At(base, at).Some?
    ensures Put(Put(base, at, parent), at + [s], v) == Put(base, at, SetChild(parent, s, v))
  {
    AtPutSame(base, at, parent);
    PutBelow(Put(base, at, parent), at, s, v);
    PutPut(base, at, parent, SetChild(parent, s, v));
  }

  /* ---------------------------------------------------------------------- *
   * The work-list measure.                                                 *
   * ---------------------------------------------------------------------- */

  function Sum(s: seq<nat>): nat {
    if s == [] then 0 else Sum(s[..|s| - 1]) + s[|s| - 1]
  }

  ghost function SumMap(m: map<string, nat>, keys: set<string>): nat
    requires keys <= m.Keys
    decreases |keys|
  {
    if keys == {} then 0 else var k :| k in keys; SumMap(m, keys - {k}) + m[k]
  }

  lemma {:induction false} SumMapSplit(m: map<string, nat>, keys: set<string>, k: string)
    requires keys <= m.Keys && k in keys
    ensures SumMap(m, keys) == SumMap(m, keys - {k}) + m[k]
    decreases |keys|
  {
    var j :| j in keys && SumMap(m, keys) == SumMap(m, keys - {j}) + m[j];
    if j != k {
      assert keys - {j} - {k} == keys - {k} - {j};
      SumMapSplit(m, keys - {j}, k);
      SumMapSplit(m, keys - {k}, j);
    }
  }

  /** The number of nodes in a tree. */
  ghost function Size(n: Node): nat {
    match n
    case Arr(es) => 1 + Sum(seq(|es|, i requires 0 <= i < |es| => Size(es[i])))
    case Obj(m) => 1 + SumMap(map k | k in m :: Size(m[k]), m.Keys)
    case _ => 1
  }

  /** Pops left: the size of everything the pending editors will still visit. */
  ghost function Work(eng: Engine, env: Env, q: seq<Editor>): nat {
    if q == [] then 0 else Size(Rewrite(eng, env, q[0].node)) + Work(eng, env, q[1..])
  }

  lemma {:induction false} WorkAppend(eng: Engine, env: Env, p: seq<Editor>, q: seq<Editor>)
    ensures Work(eng, env, p + q) == Work(eng, env, p) + Work(eng, env, q)
    decreases |p|
  {
    if p == [] {
      assert p + q == q;
    } else {
      assert (p + q)[0] == p[0] && (p + q)[1..] == p[1..] + q;
      WorkAppend(eng, env, p[1..], q);
    }
  }

  lemma WorkOne(eng: Engine, env: Env, e: Editor)
    ensures Work(eng, env, [e]) == Size(Rewrite(eng, env, e.node))
  {
    assert [e][1..] == [];
  }

  /** `e` is an editor for a child of `parent`, which is written back at `at`. */
  predicate KidOf(parent: Node, at: Path, e: Editor) {
    |e.at| == |at| + 1 && e.at[..|at|] == at && Child(parent, e.at[|at|]) == Some(e.node)
  }

  /** Editors for distinct children of the same node are apart. */
  lemma KidsApart(parent: Node, at: Path, e: Editor, f: Editor)
    requires KidOf(parent, at, e) && KidOf(parent, at, f) && e.at != f.at
    ensures Apart(e.at, f.at)
  {
    assert e.at == at + [e.at[|at|]] && f.at == at + [f.at[|at|]];
  }

  /** A path apart from `p` is apart from every path below `p`. */
  lemma ApartBelow(p: Path, q: Path, s: Step)
    requires Apart(p, q)
    ensures Apart(p + [s], q)
  {
    assert (p + [s])[..|p|] == p;
  }

  /* ---------------------------------------------------------------------- *
   * Queueing the children of a settled node.                               *
   * ---------------------------------------------------------------------- */

  /** One editor per element, in index order, or per field, in key order. Writing
      back the rewrite of every child finishes the rewrite of the node. */
  method QueueChildren(ghost eng: Engine, ghost env: Env, node: Node, at: Path, ghost base: Node)
    returns (kids: seq<Editor>)
    requires At(base, at).Some?
    ensures forall i | 0 <= i < |kids| :: KidOf(node, at, kids[i])
    ensures forall i, j | 0 <= i < j < |kids| :: kids[i].at != kids[j].at
    ensures Fill(eng, env, Put(base, at, node), kids) == Put(base, at, Descend(eng, env, node))
    ensures Work(eng, env, kids) + 1 == Size(Descend(eng, env, node))
  {
    kids := [];
    match node
    case Arr(es) => kids := QueueElementEditors(eng, env, es, at, base);
    case Obj(m) => kids := QueueFieldEditors(eng, env, m, at, base);
    case _ =>
  }

  /** The array with its first `i` elements rewritten. */
  function PartlyRewritten(eng: Engine, env: Env, es: seq<Node>, i: nat): Node {
    Arr(seq(|es|, j requires 0 <= j < |es| => if j < i then Rewrite(eng, env, es[j]) else es[j]))
  }

  /** The sizes of the rewritten elements. */
  ghost function RewrittenSizes(eng: Engine, env: Env, es: seq<Node>): (r: seq<nat>)
    ensures |r| == |es|
  {
    seq(|es|, j requires 0 <= j < |es| => Size(Rewrite(eng, env, es[j])))
  }

  lemma ArraySize(eng: Engine, env: Env, es: seq<Node>)
    ensures Size(Descend(eng, env, Arr(es))) == 1 + Sum(RewrittenSizes(eng, env, es))
  {
    var d := Descend(eng, env, Arr(es)).elems;
    assert seq(|d|, j requires 0 <= j < |d| => Size(d[j])) == RewrittenSizes(eng, env, es);
  }

  lemma SumSnoc(s: seq<nat>, i: nat)
    requires i < |s|
    ensures Sum(s[..i + 1]) == Sum(s[..i]) + s[i]
  {
    assert s[..i + 1][..i] == s[..i];
  }

  /** The editor for element `i` of an array written back at `at`: Editor.get(int). */
  function ElementEditor(es: seq<Node>, at: Path, i: nat): Editor
    requires i < |es|
  {
    Editor(Arr(es), at).Get(Index(i))
  }

  method QueueElementEditors(ghost eng: Engine, ghost env: Env, es: seq<Node>, at: Path, ghost base: Node)
    returns (kids: seq<Editor>)
    requires At(base, at).Some?
    ensures forall i | 0 <= i < |kids| :: KidOf(Arr(es), at, kids[i])
    ensures forall i, j | 0 <= i < j < |kids| :: kids[i].at != kids[j].at
    ensures Fill(eng, env, Put(base, at, Arr(es)), kids) == Put(base, at, Descend(eng, env, Arr(es)))
    ensures Work(eng, env, kids) + 1 == Size(Descend(eng, env, Arr(es)))
  {
    ghost var sizes := RewrittenSizes(eng, env, es);
    kids := [];
    var i := 0;
    assert PartlyRewritten(eng, env, es, 0).elems == es;
    while i < |es|
      invariant 0 <= i <= |es| && |kids| == i
      invariant forall j | 0 <= j < i :: kids[j] == ElementEditor(es, at, j)
      invariant Fill(eng, env, Put(base, at, Arr(es)), kids) == Put(base, at, PartlyRewritten(eng, env, es, i))
      invariant Work(eng, env, kids) == Sum(sizes[..i])
    {
      ElementWrittenBack(eng, env, base, at, es, kids, i);
      ElementWorkQueued(eng, env, es, at, kids, i);
      kids := kids + [ElementEditor(es, at, i)];
      i := i + 1;
    }
    ElementsFinished(eng, env, es, at, base, kids);
  }

  lemma ElementWorkQueued(eng: Engine, env: Env, es: seq<Node>, at: Path, kids: seq<Editor>, i: nat)
    requires i < |es| && Work(eng, env, kids) == Sum(RewrittenSizes(eng, env, es)[..i])
    ensures Work(eng, env, kids + [ElementEditor(es, at, i)]) == Sum(RewrittenSizes(eng, env, es)[..i + 1])
  {
    WorkSnoc(eng, env, kids, ElementEditor(es, at, i));
    SumSnoc(RewrittenSizes(eng, env, es), i);
  }

  /** With every element queued, the editors finish the array's descent. */
  lemma ElementsFinished(eng: Engine, env: Env, es: seq<Node>, at: Path, base: Node, kids: seq<Editor>)
    requires |kids| == |es| && forall j | 0 <= j < |es| :: kids[j] == ElementEditor(es, at, j)
    requires Fill(eng, env, Put(base, at, Arr(es)), kids) == Put(base, at, PartlyRewritten(eng, env, es, |es|))
    requires Work(eng, env, kids) == Sum(RewrittenSizes(eng, env, es)[..|es|])
    ensures forall i | 0 <= i < |kids| :: KidOf(Arr(es), at, kids[i])
    ensures forall i, j | 0 <= i < j < |kids| :: kids[i].at != kids[j].at
    ensures Fill(eng, env, Put(base, at, Arr(es)), kids) == Put(base, at, Descend(eng, env, Arr(es)))
    ensures Work(eng, env, kids) + 1 == Size(Descend(eng, env, Arr(es)))
  {
    forall i | 0 <= i < |kids|
      ensures KidOf(Arr(es), at, kids[i]) && kids[i].at[|at|] == Index(i)
    {
      assert kids[i].at[..|at|] == at;
    }
    assert PartlyRewritten(eng, env, es, |es|).elems == Descend(eng, env, Arr(es)).elems;
    assert RewrittenSizes(eng, env, es)[..|es|] == RewrittenSizes(eng, env, es);
    ArraySize(eng, env, es);
  }

  lemma ElementWrittenBack(eng: Engine, env: Env, base: Node, at: Path, es: seq<Node>, kids: seq<Editor>, i: nat)
    requires At(base, at).Some? && i < |es|
    requires Fill(eng, env, Put(base, at, Arr(es)), kids) == Put(base, at, PartlyRewritten(eng, env, es, i))
    ensures Fill(eng, env, Put(base, at, Arr(es)), kids + [ElementEditor(es, at, i)])
              == Put(base, at, PartlyRewritten(eng, env, es, i + 1))
  {
    var kid := ElementEditor(es, at, i);
    var before := PartlyRewritten(eng, env, es, i);
    FillAppend(eng, env, Put(base, at, Arr(es)), kids, [kid]);
    FillOne(eng, env, Put(base, at, before), kid);
    WriteBelow(base, at, before, Index(i), Rewrite(eng, env, es[i]));
    RewriteOneMore(eng, env, es, i);
  }

  lemma RewriteOneMore(eng: Engine, env: Env, es: seq<Node>, i: nat)
    requires i < |es|
    ensures SetChild(PartlyRewritten(eng, env, es, i), Index(i), Rewrite(eng, env, es[i])) == PartlyRewritten(eng, env, es, i + 1)
  {
    assert PartlyRewritten(eng, env, es, i).elems[i := Rewrite(eng, env, es[i])] == PartlyRewritten(eng, env, es, i + 1).elems;
  }

  lemma WorkSnoc(eng: Engine, env: Env, q: seq<Editor>, e: Editor)
    ensures Work(eng, env, q + [e]) == Work(eng, env, q) + Size(Rewrite(eng, env, e.node))
  {
    WorkAppend(eng, env, q, [e]);
    WorkOne(eng, env, e);
  }

  ghost function RewrittenFieldSizes(eng: Engine, env: Env, m: map<string, Node>): (r: map<string, nat>)
    ensures r.Keys == m.Keys
  {
    map k | k in m :: Size(Rewrite(eng, env, m[k]))
  }

  lemma ObjectSize(eng: Engine, env: Env, m: map<string, Node>)
    ensures Size(Descend(eng, env, Obj(m))) == 1 + SumMap(RewrittenFieldSizes(eng, env, m), m.Keys)
  {
    var d := Descend(eng, env, Obj(m)).fields;
    assert (map k | k in d :: Size(d[k])) == RewrittenFieldSizes(eng, env, m);
  }

  /** The editor for field `k` of an object written back at `at`: Editor.get(String). */
  function FieldEditor(m: map<string, Node>, at: Path, k: string): Editor
    requires k in m
  {
    Editor(Obj(m), at).Get(Key(k))
  }

  /** The bookkeeping of QueueFieldEditors: the editors queued so far are for the
      distinct fields `keys`, which are those in `written`, and `written` holds
      their rewrites. */
  ghost predicate FieldsQueued(eng: Engine, env: Env, m: map<string, Node>, at: Path,
                               kids: seq<Editor>, keys: seq<string>, rest: set<string>, written: map<string, Node>)
  {
    && rest <= m.Keys && written.Keys == m.Keys - rest
    && (forall k | k in written :: written[k] == Rewrite(eng, env, m[k]))
    && |keys| == |kids|
    && (forall i | 0 <= i < |keys| :: keys[i] in written && kids[i] == FieldEditor(m, at, keys[i]))
    && (forall i, j | 0 <= i < j < |keys| :: keys[i] != keys[j])
  }

  method QueueFieldEditors(ghost eng: Engine, ghost env: Env, m: map<string, Node>, at: Path, ghost base: Node)
    returns (kids: seq<Editor>)
    requires At(base, at).Some?
    ensures forall i | 0 <= i < |kids| :: KidOf(Obj(m), at, kids[i])
    ensures forall i, j | 0 <= i < j < |kids| :: kids[i].at != kids[j].at
    ensures Fill(eng, env, Put(base, at, Obj(m)), kids) == Put(base, at, Descend(eng, env, Obj(m)))
    ensures Work(eng, env, kids) + 1 == Size(Descend(eng, env, Obj(m)))
  {
    ghost var sizes := RewrittenFieldSizes(eng, env, m);
    kids := [];
    var rest := m.Keys;
    ghost var keys: seq<string> := [];
    ghost var written: map<string, Node> := map[];
    assert m + written == m;
    while rest != {}
      invariant FieldsQueued(eng, env, m, at, kids, keys, rest, written)
      invariant Fill(eng, env, Put(base, at, Obj(m)), kids) == Put(base, at, Obj(m + written))
      invariant Work(eng, env, kids) + SumMap(sizes, rest) == SumMap(sizes, m.Keys)
      decreases |rest|
    {
      var k :| k in rest;
      FieldQueued(eng, env, m, at, kids, keys, rest, written, k);
      FieldWrittenBack(eng, env, base, at, m, kids, written, k);
      FieldWorkQueued(eng, env, m, at, kids, rest, k);
      kids := kids + [FieldEditor(m, at, k)];
      keys := keys + [k];
      rest := rest - {k};
      written := written[k := Rewrite(eng, env, m[k])];
    }
    FieldsFinished(eng, env, m, at, base, kids, keys, written);
  }

  /** With no field left, the queued editors finish the object's descent. */
  lemma FieldsFinished(eng: Engine, env: Env, m: map<string, Node>, at: Path, base: Node,
                       kids: seq<Editor>, keys: seq<string>, written: map<string, Node>)
    requires FieldsQueued(eng, env, m, at, kids, keys, {}, written)
    requires Fill(eng, env, Put(base, at, Obj(m)), kids) == Put(base, at, Obj(m + written))
    requires Work(eng, env, kids) + SumMap(RewrittenFieldSizes(eng, env, m), {}) == SumMap(RewrittenFieldSizes(eng, env, m), m.Keys)
    ensures forall i | 0 <= i < |kids| :: KidOf(Obj(m), at, kids[i])
    ensures forall i, j | 0 <= i < j < |kids| :: kids[i].at != kids[j].at
    ensures Fill(eng, env, Put(base, at, Obj(m)), kids) == Put(base, at, Descend(eng, env, Obj(m)))
    ensures Work(eng, env, kids) + 1 == Size(Descend(eng, env, Obj(m)))
  {
    FieldKids(m, at, kids, keys);
    AllFieldsWritten(eng, env, m, written);
    ObjectSize(eng, env, m);
  }

  /** Queueing the editor for one more field keeps the bookkeeping. */
  lemma FieldQueued(eng: Engine, env: Env, m: map<string, Node>, at: Path,
                    kids: seq<Editor>, keys: seq<string>, rest: set<string>, written: map<string, Node>, k: string)
    requires k in rest
    requires FieldsQueued(eng, env, m, at, kids, keys, rest, written)
    ensures FieldsQueued(eng, env, m, at, kids + [FieldEditor(m, at, k)], keys + [k], rest - {k},
                         written[k := Rewrite(eng, env, m[k])])
  {
  }

  lemma FieldWorkQueued(eng: Engine, env: Env, m: map<string, Node>, at: Path,
                        kids: seq<Editor>, rest: set<string>, k: string)
    requires rest <= m.Keys && k in rest
    requires Work(eng, env, kids) + SumMap(RewrittenFieldSizes(eng, env, m), rest) == SumMap(RewrittenFieldSizes(eng, env, m), m.Keys)
    ensures Work(eng, env, kids + [FieldEditor(m, at, k)]) + SumMap(RewrittenFieldSizes(eng, env, m), rest - {k})
              == SumMap(RewrittenFieldSizes(eng, env, m), m.Keys)
  {
    WorkSnoc(eng, env, kids, FieldEditor(m, at, k));
    SumMapSplit(RewrittenFieldSizes(eng, env, m), rest, k);
  }

  /** Once every field is written, the object is its descent. */
  lemma AllFieldsWritten(eng: Engine, env: Env, m: map<string, Node>, written: map<string, Node>)
    requires written.Keys == m.Keys
    requires forall k | k in written :: written[k] == Rewrite(eng, env, m[k])
    ensures Obj(m + written) == Descend(eng, env, Obj(m))
  {
    assert m + written == Descend(eng, env, Obj(m)).fields;
  }

  /** Editors for distinct fields are children at distinct paths. */
  lemma FieldKids(m: map<string, Node>, at: Path, kids: seq<Editor>, keys: seq<string>)
    requires |keys| == |kids|
    requires forall i | 0 <= i < |keys| :: keys[i] in m && kids[i] == FieldEditor(m, at, keys[i])
    requires forall i, j | 0 <= i < j < |keys| :: keys[i] != keys[j]
    ensures forall i | 0 <= i < |kids| :: KidOf(Obj(m), at, kids[i])
    ensures forall i, j | 0 <= i < j < |kids| :: kids[i].at != kids[j].at
  {
    forall i | 0 <= i < |kids|
      ensures KidOf(Obj(m), at, kids[i])
    {
      assert kids[i].at[..|at|] == at && kids[i].at[|at|] == Key(keys[i]);
    }
    forall i, j | 0 <= i < j < |kids|
      ensures kids[i].at != kids[j].at
    {
      assert kids[i].at[|at|] == Key(keys[i]) && kids[j].at[|at|] == Key(keys[j]);
    }
  }

  lemma FieldWrittenBack(eng: Engine, env: Env, base: Node, at: Path, m: map<string, Node>, kids: seq<Editor>,
                         written: map<string, Node>, k: string)
    requires At(base, at).Some? && k in m && written.Keys <= m.Keys
    requires Fill(eng, env, Put(base, at, Obj(m)), kids) == Put(base, at, Obj(m + written))
    ensures Fill(eng, env, Put(base, at, Obj(m)), kids + [FieldEditor(m, at, k)])
              == Put(base, at, Obj(m + written[k := Rewrite(eng, env, m[k])]))
  {
    var kid := FieldEditor(m, at, k);
    var v := Rewrite(eng, env, m[k]);
    FillAppend(eng, env, Put(base, at, Obj(m)), kids, [kid]);
    FillOne(eng, env, Put(base, at, Obj(m + written)), kid);
    WriteBelow(base, at, Obj(m + written), Key(k), v);
    FieldOneMore(m, written, k, v);
  }

  lemma FieldOneMore(m: map<string, Node>, written: map<string, Node>, k: string, v: Node)
    requires k in m
    ensures SetChild(Obj(m + written), Key(k), v) == Obj(m + written[k := v])
  {
    assert (m + written)[k := v] == m + written[k := v];
  }

  lemma FillOne(eng: Engine, env: Env, root: Node, e: Editor)
    ensures Fill(eng, env, root, [e]) == Put(root, e.at, Rewrite(eng, env, e.node))
  {
    assert [e][1..] == [];
  }
}
