/**
 * Script leaves and the script engine. A text node whose whole text is
 * `${body}` is a script; the JavaScript engine that runs it is a foreign
 * interpreter, so it is an oracle here: a function from the current variable
 * bindings and the script body to what the engine did.
 */
module Scripts {
  import opened Wrappers
  import opened Json

  /** The characters that end a line for a Java regular expression's `.`. */
  predicate IsLineTerminator(ch: char) {
    ch == '\n' || ch == '\r' || ch == '\U{0085}' || ch == '\U{2028}' || ch == '\U{2029}'
  }

  predicate HasLineTerminator(s: string) {
    exists i | 0 <= i < |s| :: IsLineTerminator(s[i])
  }

  /** The script text `${body}`. */
  function Wrap(body: string): string {
    "${" + body + "}"
  }

  /**
   * The detector for `${...}` leaves: the pattern `\$\{(.*)\}` must match the
   * whole text of a text node, and the captured group is the body.
   */
  function Script(n: Node): (body: Option<string>)
    ensures body.Some? ==> n == Text(Wrap(body.value)) && !HasLineTerminator(body.value)
  {
    if n.Text? && |n.s| >= 3 && n.s[..2] == "${" && n.s[|n.s| - 1] == '}'
       && !HasLineTerminator(n.s[2..|n.s| - 1])
    then
      assert n.s == Wrap(n.s[2..|n.s| - 1]);
      Some(n.s[2..|n.s| - 1])
    else None
  }

  /** Every wrapped body without a line break is detected, and yields that body back. */
  lemma ScriptOfWrap(body: string)
    ensures Script(Text(Wrap(body))) == if HasLineTerminator(body) then None else Some(body)
  {
    var s := Wrap(body);
    assert s[..2] == "${" && s[|s| - 1] == '}';
    assert s[2..|s| - 1] == body;
  }

  /** No node anywhere in the tree is a script. */
  predicate ScriptFree(n: Node) {
    match n
    case Arr(es) => forall i | 0 <= i < |es| :: ScriptFree(es[i])
    case Obj(m) => forall k | k in m :: ScriptFree(m[k])
    case _ => Script(n).None?
  }

  /** No node strictly below the root is a script (the root itself may be one). */
  predicate ChildrenScriptFree(n: Node) {
    match n
    case Arr(es) => forall i | 0 <= i < |es| :: ScriptFree(es[i])
    case Obj(m) => forall k | k in m :: ScriptFree(m[k])
    case _ => true
  }

  /* ---------------------------------------------------------------------- *
   * The engine oracle.                                                     *
   * ---------------------------------------------------------------------- */

  /** Variables bound into the engine with putJson, by name. */
  type Env = map<string, Node>

  /** The variable that the matcher binds to the actual node before a script runs. */
  const ActualVar: string := "actual"

  /* ---------------------------------------------------------------------- *
   * Names a `var` statement accepts.                                       *
   * ---------------------------------------------------------------------- */

  predicate IsAsciiLetter(ch: char) {
    'a' <= ch <= 'z' || 'A' <= ch <= 'Z'
  }

  predicate IsIdentifierStart(ch: char) {
    IsAsciiLetter(ch) || ch == '$' || ch == '_'
  }

  predicate IsIdentifierPart(ch: char) {
    IsIdentifierStart(ch) || '0' <= ch <= '9'
  }

  /** The keywords, future reserved words and literals of ECMAScript 5.1 that
      non-strict code cannot declare. */
  const ReservedWords: set<string> := {
    "break", "case", "catch", "continue", "debugger", "default", "delete", "do",
    "else", "finally", "for", "function", "if", "in", "instanceof", "new",
    "return", "switch", "this", "throw", "try", "typeof", "var", "void",
    "while", "with",
    "class", "const", "enum", "export", "extends", "import", "super",
    "null", "true", "false"}

  /** `var name=...` is a valid statement: `name` is an identifier (ASCII
      letters, digits, `$` and `_`, not starting with a digit) and not reserved. */
  predicate IsIdentifier(name: string) {
    && |name| > 0
    && IsIdentifierStart(name[0])
    && (forall i | 1 <= i < |name| :: IsIdentifierPart(name[i]))
    && name !in ReservedWords
  }

  /** The matcher's variable can be declared. */
  lemma ActualIsIdentifier()
    ensures IsIdentifier(ActualVar)
  {
    assert ActualVar == ['a', 'c', 't', 'u', 'a', 'l'];
  }

  /** Declaring a variable whose name is not an identifier is a syntax error:
      `user-id`, `1st` and `class` are never bound. */
  lemma SomeNamesRejected()
    ensures !IsIdentifier("user-id") && !IsIdentifier("1st") && !IsIdentifier("class")
  {
    assert "user-id"[4] == '-';
  }

  /** What a script evaluates to: one of the two sentinels, or any other value
      already converted to a tree node. */
  datatype ScriptValue = SuccessSentinel | FailureSentinel | Data(node: Node)

  /** The engine either raises a script exception or returns a value. */
  datatype Outcome = Threw | Returned(value: ScriptValue)

  type Engine = (Env, string) -> Outcome

  /**
   * evalScript: runs `body` in `env`; a script exception is caught and turned
   * into the failure sentinel, so it never escapes to the caller.
   */
  function Evaluate(eng: Engine, env: Env, body: string): (r: ScriptValue)
    ensures eng(env, body).Threw? ==> r == FailureSentinel
    ensures eng(env, body).Returned? ==> r == eng(env, body).value
  {
    match eng(env, body)
    case Threw => FailureSentinel
    case Returned(v) => v
  }

  /** How the rewriter stores a script value in a tree: a sentinel becomes the
      text of its name (Jackson's conversion of an enum constant). */
  function AsNode(v: ScriptValue): Node {
    match v
    case SuccessSentinel => Text("SUCCESS")
    case FailureSentinel => Text("FAILURE")
    case Data(n) => n
  }

  /** The engine's array and object results hold no script below their root. */
  ghost predicate ResultsInert(eng: Engine) {
    forall env, body :: eng(env, body).Returned? ==> ChildrenScriptFree(AsNode(eng(env, body).value))
  }

  /** The engine's results hold no script at all. */
  ghost predicate ResultsScriptFree(eng: Engine) {
    forall env, body :: eng(env, body).Returned? ==> ScriptFree(AsNode(eng(env, body).value))
  }
}
