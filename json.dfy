/**
 * The tree model shared by the matcher and the rewriter: Jackson's JsonNode
 * kinds as a value type, the synthetic Missing marker, paths into a tree, and
 * the path-wise read (`At`) and write-back (`Put`) that the rewriter's
 * editors perform.
 */
module Json {
  import opened Wrappers
  import opened Decimal

  /** Which Jackson node class holds an integral number. Two integral numbers
      held by different classes are not structurally equal. */
  datatype Repr = Int32 | Int64 | BigInteger | Double

  /** A JSON number: an integral value with its representation, or a
      non-integral number kept as opaque text and compared by equality only. */
  datatype Number =
    | Integral(value: int, repr: Repr)
    | Fraction(text: string)

  datatype Node =
    | Null
    | Bool(b: bool)
    | Num(n: Number)
    | Text(s: string)
    | Arr(elems: seq<Node>)
    | Obj(fields: map<string, Node>)
    | Missing   // "no actual value at this path"; synthesized by the matcher

  /** Jackson's getNodeType(). */
  datatype NodeType = NullType | BooleanType | NumberType | StringType | ArrayType | ObjectType | MissingType

  function TypeOf(n: Node): NodeType {
    match n
    case Null => NullType
    case Bool(_) => BooleanType
    case Num(_) => NumberType
    case Text(_) => StringType
    case Arr(_) => ArrayType
    case Obj(_) => ObjectType
    case Missing => MissingType
  }

  /** Jackson's isValueNode(): every kind except array, object and missing. */
  predicate IsValueNode(n: Node) {
    !n.Arr? && !n.Obj? && !n.Missing?
  }

  const MinLong: int := -0x8000_0000_0000_0000
  const MaxLong: int := 0x7fff_ffff_ffff_ffff

  /**
   * Jackson's canConvertToLong(), for the numbers this model distinguishes: an
   * integral number inside the 64-bit range. Jackson also accepts a double with
   * a fractional part inside that range (its longValue() truncates); fractions
   * are opaque here, so they never convert.
   */
  predicate CanConvertToLong(x: Number) {
    x.Integral? && MinLong <= x.value <= MaxLong
  }

  /**
   * Jackson's asText(): the text of a text node, the literal of a null or
   * boolean, the numeral of a number, and the empty text for arrays, objects
   * and Missing. A double is written with a trailing `.0`.
   */
  function AsText(n: Node): string {
    match n
    case Null => "null"
    case Bool(b) => if b then "true" else "false"
    case Num(Integral(v, Double)) => Signed(v) + ".0"
    case Num(Integral(v, _)) => Signed(v)
    case Num(Fraction(t)) => t
    case Text(s) => s
    case _ => ""
  }

  /** User-authored trees never contain Missing. */
  predicate NoMissing(n: Node) {
    match n
    case Missing => false
    case Arr(es) => forall i | 0 <= i < |es| :: NoMissing(es[i])
    case Obj(m) => forall k | k in m :: NoMissing(m[k])
    case _ => true
  }

  /* ---------------------------------------------------------------------- *
   * Paths: the steps of a JSON pointer.                                    *
   * ---------------------------------------------------------------------- */

  datatype Step = Index(i: nat) | Key(k: string)
  type Path = seq<Step>

  /** Jackson's get(int) / get(String): the child at one step, if there is one. */
  function Child(n: Node, s: Step): Option<Node> {
    match s
    case Index(i) => if n.Arr? && i < |n.elems| then Some(n.elems[i]) else None
    case Key(k) => if n.Obj? && k in n.fields then Some(n.fields[k]) else None
  }

  /** ArrayNode.set(i, v) / ObjectNode.set(k, v) on an existing child. */
  function SetChild(n: Node, s: Step, v: Node): Node {
    match s
    case Index(i) => if n.Arr? && i < |n.elems| then Arr(n.elems[i := v]) else n
    case Key(k) => if n.Obj? && k in n.fields then Obj(n.fields[k := v]) else n
  }

  /** The subtree at path `p`, if the path exists. */
  function At(n: Node, p: Path): Option<Node>
    decreases |p|
  {
    if p == [] then Some(n)
    else match Child(n, p[0])
      case None => None
      case Some(c) => At(c, p[1..])
  }

  /** Write-back: `n` with the subtree at `p` replaced by `v` (unchanged when `p` does not exist). */
  function Put(n: Node, p: Path, v: Node): Node
    decreases |p|
  {
    if p == [] then v
    else match Child(n, p[0])
      case None => n
      case Some(c) => SetChild(n, p[0], Put(c, p[1..], v))
  }

  /** Neither path lies on the other: the two subtrees are disjoint. */
  predicate Apart(p: Path, q: Path) {
    !(p <= q) && !(q <= p)
  }

  /** Two paths apart from each other that start with the same step stay apart after it. */
  lemma ApartTails(p: Path, q: Path)
    requires Apart(p, q) && p[0] == q[0]
    ensures Apart(p[1..], q[1..])
  {
    assert p == [p[0]] + p[1..] && q == [q[0]] + q[1..];
    assert p <= q <==> p[1..] <= q[1..];
    assert q <= p <==> q[1..] <= p[1..];
  }

  lemma ChildOfSet(n: Node, s: Step, t: Step, v: Node)
    requires Child(n, s).Some?
    ensures Child(SetChild(n, s, v), s) == Some(v)
    ensures t != s ==> Child(SetChild(n, s, v), t) == Child(n, t)
  {
  }

  lemma SetChildCommutes(n: Node, s: Step, t: Step, v: Node, w: Node)
    requires s != t
    ensures SetChild(SetChild(n, s, v), t, w) == SetChild(SetChild(n, t, w), s, v)
  {
    match s
    case Index(i) =>
      if t.Index? && n.Arr? && i < |n.elems| && t.i < |n.elems| {
        assert n.elems[i := v][t.i := w] == n.elems[t.i := w][i := v];
      }
    case Key(k) =>
      if t.Key? && n.Obj? && k in n.fields && t.k in n.fields {
        assert n.fields[k := v][t.k := w] == n.fields[t.k := w][k := v];
      }
  }

  lemma SetChildTwice(n: Node, s: Step, v: Node, w: Node)
    ensures SetChild(SetChild(n, s, v), s, w) == SetChild(n, s, w)
  {
    match s
    case Index(i) =>
      if n.Arr? && i < |n.elems| {
        assert n.elems[i := v][i := w] == n.elems[i := w];
      }
    case Key(k) =>
      if n.Obj? && k in n.fields {
        assert n.fields[k := v][k := w] == n.fields[k := w];
      }
  }

  /** Reading one step below a path. */
  lemma {:induction false} AtSnoc(n: Node, p: Path, s: Step)
    ensures At(n, p + [s]) == if At(n, p).Some? then Child(At(n, p).value, s) else None
    decreases |p|
  {
    if p == [] {
      assert p + [s] == [s];
    } else {
      assert (p + [s])[1..] == p[1..] + [s];
      match Child(n, p[0])
      case None =>
      case Some(c) => AtSnoc(c, p[1..], s);
    }
  }

  /** A write leaves every path apart from it as it was. */
  lemma {:induction false} AtPutApart(n: Node, p: Path, q: Path, v: Node)
    requires Apart(p, q)
    ensures At(Put(n, p, v), q) == At(n, q)
    decreases |p|
  {
    match Child(n, p[0])
    case None =>
    case Some(c) =>
      ChildOfSet(n, p[0], q[0], Put(c, p[1..], v));
      if p[0] == q[0] {
        ApartTails(p, q);
        AtPutApart(c, p[1..], q[1..], v);
      }
  }

  /** Writing at an existing path makes that path read back the new value. */
  lemma {:induction false} AtPutSame(n: Node, p: Path, v: Node)
    requires At(n, p).Some?
    ensures At(Put(n, p, v), p) == Some(v)
    decreases |p|
  {
    if p != [] {
      var c := Child(n, p[0]).value;
      ChildOfSet(n, p[0], p[0], Put(c, p[1..], v));
      AtPutSame(c, p[1..], v);
    }
  }

  /** A write never changes which paths exist. */
  lemma {:induction false} AtPutDefined(n: Node, p: Path, q: Path, v: Node)
    requires At(n, p).Some? && Apart(p, q)
    ensures At(Put(n, p, v), q).Some? <==> At(n, q).Some?
  {
    AtPutApart(n, p, q, v);
  }

  /** Two writes at the same path: the second wins. */
  lemma {:induction false} PutPut(n: Node, p: Path, v: Node, w: Node)
    ensures Put(Put(n, p, v), p, w) == Put(n, p, w)
    decreases |p|
  {
    if p != [] {
      if Child(n, p[0]).None? {
        PutAbsent(n, p, v);
      } else {
        PutTwiceBelow(n, p, v, p, w);
        PutPut(Child(n, p[0]).value, p[1..], v, w);
        PutStep(n, p, w);
      }
    }
  }

  /** Writes at paths apart from each other commute. */
  lemma {:induction false} PutCommutes(n: Node, p: Path, q: Path, v: Node, w: Node)
    requires Apart(p, q)
    ensures Put(Put(n, p, v), q, w) == Put(Put(n, q, w), p, v)
    decreases |p|
  {
    if p[0] != q[0] {
      PutCommutesOtherStep(n, p, q, v, w);
    } else if Child(n, p[0]).Some? {
      PutCommutesSameStep(n, p, q, v, w);
    }
  }

  lemma {:induction false} PutCommutesSameStep(n: Node, p: Path, q: Path, v: Node, w: Node)
    requires Apart(p, q) && p[0] == q[0] && Child(n, p[0]).Some?
    ensures Put(Put(n, p, v), q, w) == Put(Put(n, q, w), p, v)
    decreases |p|, 0
  {
    ApartTails(p, q);
    PutTwiceBelow(n, p, v, q, w);
    PutTwiceBelow(n, q, w, p, v);
    PutCommutes(Child(n, p[0]).value, p[1..], q[1..], v, w);
  }

  /** Two writes below the same existing step are two writes inside that child. */
  lemma PutTwiceBelow(n: Node, p: Path, v: Node, q: Path, w: Node)
    requires p != [] && q != [] && p[0] == q[0] && Child(n, p[0]).Some?
    ensures Put(Put(n, p, v), q, w) ==
              SetChild(n, p[0], Put(Put(Child(n, p[0]).value, p[1..], v), q[1..], w))
  {
    var s, c := p[0], Child(n, p[0]).value;
    var cp := Put(c, p[1..], v);
    PutStep(n, p, v);
    ChildOfSet(n, s, s, cp);
    PutStep(SetChild(n, s, cp), q, w);
    SetChildTwice(n, s, cp, Put(cp, q[1..], w));
  }

  lemma PutCommutesOtherStep(n: Node, p: Path, q: Path, v: Node, w: Node)
    requires p != [] && q != [] && p[0] != q[0]
    ensures Put(Put(n, p, v), q, w) == Put(Put(n, q, w), p, v)
  {
    if Child(n, p[0]).None? {
      PutAbsent(n, p, v);
      ChildUnchangedByPut(n, q, w, p[0]);
      PutAbsent(Put(n, q, w), p, v);
    } else if Child(n, q[0]).None? {
      PutAbsent(n, q, w);
      ChildUnchangedByPut(n, p, v, q[0]);
      PutAbsent(Put(n, p, v), q, w);
    } else {
      PutCommutesBothPresent(n, p, q, v, w);
    }
  }

  lemma PutCommutesBothPresent(n: Node, p: Path, q: Path, v: Node, w: Node)
    requires p != [] && q != [] && p[0] != q[0] && Child(n, p[0]).Some? && Child(n, q[0]).Some?
    ensures Put(Put(n, p, v), q, w) == Put(Put(n, q, w), p, v)
  {
    var c, d := Child(n, p[0]).value, Child(n, q[0]).value;
    var cp, dq := Put(c, p[1..], v), Put(d, q[1..], w);
    PutStep(n, p, v);
    PutStep(n, q, w);
    ChildOfSet(n, p[0], q[0], cp);
    ChildOfSet(n, q[0], p[0], dq);
    PutStep(SetChild(n, p[0], cp), q, w);
    PutStep(SetChild(n, q[0], dq), p, v);
    SetChildCommutes(n, p[0], q[0], cp, dq);
  }

  /** A write below a missing step changes nothing. */
  lemma PutAbsent(n: Node, p: Path, v: Node)
    requires p != [] && Child(n, p[0]).None?
    ensures Put(n, p, v) == n
  {
  }

  /** A write below an existing step rewrites that child. */
  lemma PutStep(n: Node, p: Path, v: Node)
    requires p != [] && Child(n, p[0]).Some?
    ensures Put(n, p, v) == SetChild(n, p[0], Put(Child(n, p[0]).value, p[1..], v))
  {
  }

  /** Writing back the value already at an existing path changes nothing. */
  lemma {:induction false} PutExisting(n: Node, p: Path, v: Node)
    requires At(n, p) == Some(v)
    ensures Put(n, p, v) == n
    decreases |p|
  {
    if p != [] {
      var c := Child(n, p[0]).value;
      PutExisting(c, p[1..], v);
      PutStep(n, p, v);
      SetChildSame(n, p[0], c);
    }
  }

  lemma SetChildSame(n: Node, s: Step, c: Node)
    requires Child(n, s) == Some(c)
    ensures SetChild(n, s, c) == n
  {
    match s
    case Index(i) => assert n.elems[i := c] == n.elems;
    case Key(k) => assert n.fields[k := c] == n.fields;
  }

  /** A write below one step leaves the other steps' children, and the step's existence, alone. */
  lemma ChildUnchangedByPut(n: Node, p: Path, v: Node, s: Step)
    requires p != [] && p[0] != s
    ensures Child(Put(n, p, v), s) == Child(n, s)
  {
    match Child(n, p[0])
    case None =>
    case Some(c) => ChildOfSet(n, p[0], s, Put(c, p[1..], v));
  }

  /** Writing one step below an existing path is a write of the updated subtree at that path. */
  lemma {:induction false} PutBelow(n: Node, p: Path, s: Step, w: Node)
    requires At(n, p).Some?
    ensures Put(n, p + [s], w) == Put(n, p, SetChild(At(n, p).value, s, w))
    decreases |p|
  {
    if p == [] {
      assert p + [s] == [s];
      match Child(n, s)
      case None =>
        assert SetChild(n, s, w) == n by {
          match s
          case Index(i) =>
          case Key(k) =>
        }
      case Some(c) =>
    } else {
      var c := Child(n, p[0]).value;
      assert (p + [s])[0] == p[0] && (p + [s])[1..] == p[1..] + [s];
      PutBelow(c, p[1..], s, w);
    }
  }
}
