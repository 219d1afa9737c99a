# rest-test-ex core, modelled in Dafny

This project models the core of rest-test-ex, a YAML-driven REST test runner. A
test sequence names its parameters and holds a list of steps. Each step does
four things in order:

- runs an optional `before` script;
- evaluates a request template, in which the `${...}` leaves are scripts, and
  sends the request;
- compares the response with an expected JSON template;
- runs an optional `after` script.

All scripts run in one JavaScript engine owned by a `JsonComparator`, so
variables bound by one step are seen by the next. Providers supply tables of
data rows for data-driven tests. Sequences and providers are loaded from YAML
files into two registries, where they are looked up by id.

The modules follow the program's structure:

| module | file | what it holds |
|---|---|---|
| `Wrappers` | wrappers.dfy | `Option` and `Result`. |
| `Json` | json.dfy | Jackson's node kinds as a value type, including the synthetic `Missing`. Also paths, the path-wise read `At`, the write-back `Put`, and their algebra. |
| `Scripts` | scripts.dfy | Detection of `${body}` leaves. The engine as an oracle `Engine = (Env, string) -> Outcome`, and `evalScript`'s handling of a script exception. |
| `Matcher` | matcher.dfy | `JsonComparator.Comparison` and its `get`/`setExtra`. The specification of `compareNodes`: `Walk`/`Judge` give, for one comparison, how many comparisons are popped and which are reported. `Mismatches` is the report for a root comparison. `Pending` is everything still on the work-list. |
| `MatcherFacts` | matcher_facts.dfy | What `compareNodes` promises, proved from the specification: the rules for nulls, scripts, kinds, numbers, arrays and objects; self-comparison; that every report is genuine; and the `*`/`**` policies. |
| `Rewriter` | rewriter.dfy | The specification of `evalNode` (`Rewrite`). The `Editor` with its `get`/`replace` as a path plus write-back. The work-list reading `Fill`, and the `Work` measure. |
| `Session` | session.dfy | `class JsonComparator`, which holds the engine and the current bindings: `putJson`, `evalScript`, and `compareNodes` and `evalNode` as work-list loops proved against `Mismatches` and `Rewrite`. |
| `Steps` | step.dfy | `TestStep`, `TestStep.Result` as a class, and `run`, proved against `StepSpec`, a block-by-block reading of the step. |
| `Decimal` | decimal.dfy | Decimal text of a count, as Java string concatenation prints an `int`. |
| `Sequences` | sequence.dfy | `TestSequence`, its `Result` class, parameter binding, and `run`. `run` is proved against `Verdict` and against a chain of `StepSpec` outcomes, one per step. |
| `Registries` | registry.dfy | The id registry with its loaded-set, shared by `TestSequence` and `Provider`: `load(URL)`, `load(String)` and `get`. |
| `Providers` | provider.dfy | `Provider.getObjects`, which projects each data row onto the parameter names. |

The model treats trees as values. Key iteration order and report order are not
observable: `compareNodes` is specified by the multiset of what it reports,
and its FIFO work-list is reasoned about through `Pending`, which sums the
tallies of the queued comparisons.

Foreign code is passed in as parameters:

- the JavaScript engine is `engine: Engine`;
- HTTP is `http: Node -> Exchange`;
- the YAML reader is `parse`;
- the classpath lookup is `resolve`;
- `Comparison.toString` is `describe`.

Where the source documentation and the code differ, the model follows the code:

- In `evalNode`, a script that answers one of the two sentinels is stored as
  the text node `"SUCCESS"` or `"FAILURE"`. This is Jackson's conversion of an
  enum constant; the sentinels are not dropped or kept as raw values.
- In `TestStep.run`, the line `ok = actual != null` can never make the step
  fail. The response of a request that was sent always exists, and a
  transport failure is an exception (`Thrown`), not a null response.
- A step's exception is caught by the sequence loop. In contrast, a sequence
  whose `steps` array is null raises out of `run` before any step runs
  (`escaped`), even when the parameter counts already differ.

## Model

All source paths are relative to the repository root.

| member | source | states |
|---|---|---|
| Scripts.Script | src/main/java/com/cleo/labs/resttest/JsonComparator.java:242-259 | A node is a script exactly when it is a text node `${body}` whose body has no line terminator. The detected body is the text between the delimiters. |
| Scripts.ScriptOfWrap | src/main/java/com/cleo/labs/resttest/JsonComparator.java:242-259 | Wrapping any body in `${...}` is detected as a script and gives the body back, unless the body contains a line terminator; then it is no script. |
| Scripts.Evaluate | src/main/java/com/cleo/labs/resttest/JsonComparator.java:216-225 | A script exception becomes the FAILURE sentinel; otherwise the engine's value is returned unchanged. |
| Matcher.Root | src/main/java/com/cleo/labs/resttest/JsonComparator.java:152-157 | The root comparison is at path `/` (the empty path), holds both nodes, and has the default policy `${success}`. |
| Matcher.ElementAt | src/main/java/com/cleo/labs/resttest/JsonComparator.java:164-169 | The comparison of element `i` extends the path by index `i`, compares the two elements at `i`, and inherits the policy. |
| Matcher.FieldAt | src/main/java/com/cleo/labs/resttest/JsonComparator.java:176-195 | The comparison of field `name` extends the path by `name`. The expected side is the expected field, else the `*` rule, else the policy. The actual side is the actual field, or Missing when it is absent. |
| Matcher.SetExtra | src/main/java/com/cleo/labs/resttest/JsonComparator.java:141-144 | Replaces the policy and leaves path, expected and actual as they were. |
| Matcher.QueueElements | src/main/java/com/cleo/labs/resttest/JsonComparator.java:323-327 | Queues one comparison per index, in index order. What they report is exactly the element part of the specification. |
| Matcher.QueueFields | src/main/java/com/cleo/labs/resttest/JsonComparator.java:341-349 | Queues one comparison per field name. What they report is exactly the field part of the specification. |
| Matcher.PendingAppend | src/main/java/com/cleo/labs/resttest/JsonComparator.java:283-287 | Appending to the work-list adds the tallies of the appended comparisons, so the order of the queue does not change the multiset reported. |
| MatcherFacts.NumbersMatchIff | src/main/java/com/cleo/labs/resttest/JsonComparator.java:311-317 | Two numbers match exactly when both fit a long with equal values, or are the same Jackson number node. |
| MatcherFacts.NumbersAcrossClasses | src/main/java/com/cleo/labs/resttest/JsonComparator.java:311-317 | Within the long range the node class of an integer does not matter. Above it, a double and a big integer of equal value do not match. |
| MatcherFacts.NullGuard | src/main/java/com/cleo/labs/resttest/JsonComparator.java:288-293 | Two null sides report nothing. One null side reports the root comparison once. |
| MatcherFacts.ScriptOutcomes | src/main/java/com/cleo/labs/resttest/JsonComparator.java:294-308 | With `actual` bound, SUCCESS reports nothing and queues nothing. FAILURE or a script exception reports the comparison. Any other value replaces the expected side, and the rules are applied to it. |
| MatcherFacts.KindMismatch | src/main/java/com/cleo/labs/resttest/JsonComparator.java:309-310 | Nodes of different kinds are reported once and nothing below them is compared. |
| MatcherFacts.ScalarVerdict | src/main/java/com/cleo/labs/resttest/JsonComparator.java:318-322 | A non-script value node is reported at most once: exactly when the kinds differ, or when the values are unequal under the rule for their kind. |
| MatcherFacts.ArrayLengths | src/main/java/com/cleo/labs/resttest/JsonComparator.java:323-328 | Arrays of different lengths are reported once, at the array. Arrays of equal length report the sum of their element comparisons. |
| MatcherFacts.StarStarPolicy | src/main/java/com/cleo/labs/resttest/JsonComparator.java:332-335 | A `**` field becomes the policy of every field comparison queued from the object. |
| MatcherFacts.ExtraFieldsRejected | src/main/java/com/cleo/labs/resttest/JsonComparator.java:345-348 | When the `*` field is a script that always fails and there is no `**`, every actual-only field is reported exactly once, at its own path: the object admits no extra fields. |
| MatcherFacts.ExtraFieldsAccepted | src/main/java/com/cleo/labs/resttest/JsonComparator.java:346-349 | With no `*` or `**`, and a policy that always succeeds, actual-only fields add nothing: the report is that of the expected fields. |
| MatcherFacts.OnlyMissingFieldReported | src/main/java/com/cleo/labs/resttest/JsonComparator.java:186-190 | A single expected field that the actual object lacks is reported exactly once, against Missing. |
| MatcherFacts.MissingAndExtraField | src/main/java/com/cleo/labs/resttest/JsonComparator.java:329-350 | Comparing `{"a":1}` with `{"b":2}` under the default policy reports only `/a` against Missing. |
| MatcherFacts.SelfComparison | src/main/java/com/cleo/labs/resttest/JsonComparator.java:282-355 | A tree with no script leaves and no Missing, compared with itself, gives an empty report, whatever the engine. |
| MatcherFacts.MismatchesAreGenuine | src/main/java/com/cleo/labs/resttest/JsonComparator.java:282-355 | Every reported comparison fails on its own: one null side, a failing script, or conflicting nodes. Its actual side is what the actual tree holds at its path, or Missing. |
| MatcherFacts.ContainersDelegate | src/main/java/com/cleo/labs/resttest/JsonComparator.java:323-350 | Two objects are never reported themselves. Two arrays are reported only when their lengths differ. |
| MatcherFacts.ContainerFailure | src/main/java/com/cleo/labs/resttest/JsonComparator.java:323-350 | A local failure between two objects is impossible. A local failure between two arrays means their lengths differ. |
| Rewriter.Descend | src/main/java/com/cleo/labs/resttest/JsonComparator.java:458-462 | Rewriting the children keeps the node's kind, its array length and its key set. |
| Rewriter.RewriteScriptFree | src/main/java/com/cleo/labs/resttest/JsonComparator.java:442-465 | A tree without scripts is returned unchanged. |
| Rewriter.RewriteRootScript | src/main/java/com/cleo/labs/resttest/JsonComparator.java:449-457 | A root script is replaced by its value. A sentinel becomes its name as text. |
| Rewriter.RewriteAt | src/main/java/com/cleo/labs/resttest/JsonComparator.java:458-462 | The rewritten tree holds, at every existing path, the rewrite of the original subtree there. |
| Rewriter.RewriteLeavesNoScript | src/main/java/com/cleo/labs/resttest/JsonComparator.java:442-465 | When the engine returns no scripts, the result contains no script. |
| Rewriter.RewriteIdempotent | src/main/java/com/cleo/labs/resttest/JsonComparator.java:442-465 | When the engine returns no scripts, rewriting twice is rewriting once. |
| Rewriter.SettleThenDescend | src/main/java/com/cleo/labs/resttest/JsonComparator.java:449-462 | Replacing the node, then visiting its children, is the whole rewrite of the node. |
| Rewriter.Editor.Get | src/main/java/com/cleo/labs/resttest/JsonComparator.java:391-403 | The child editor points one step below its parent and holds what the tree has there. |
| Rewriter.Editor.Replace | src/main/java/com/cleo/labs/resttest/JsonComparator.java:371-374 | After replace, the tree holds the new node at the editor's place, and every disjoint place is unchanged. |
| Rewriter.QueueChildren | src/main/java/com/cleo/labs/resttest/JsonComparator.java:458-462 | Queues disjoint child editors. Finishing them writes back exactly the rewritten children, and their work is the size of the result below the node. |
| Rewriter.QueueElementEditors | src/main/java/com/cleo/labs/resttest/JsonComparator.java:459 | One editor per index, at distinct places. Finishing them yields the array with each element rewritten. |
| Rewriter.QueueFieldEditors | src/main/java/com/cleo/labs/resttest/JsonComparator.java:461 | One editor per field, at distinct places. Finishing them yields the object with each field rewritten. |
| Session.JsonComparator.constructor | src/main/java/com/cleo/labs/resttest/JsonComparator.java:496-510 | The engine starts with the prelude bindings. |
| Session.JsonComparator.PutJson | src/main/java/com/cleo/labs/resttest/JsonComparator.java:230-237 | Binds the variable to the tree when its name is a JavaScript identifier, and changes no other binding. For any other name the `var` statement is a syntax error that is swallowed, and the bindings stay as they were. |
| Scripts.SomeNamesRejected | src/main/java/com/cleo/labs/resttest/JsonComparator.java:232 | `user-id`, `1st` and `class` cannot be declared with `var`, so putJson never binds them. |
| Session.JsonComparator.EvalScript | src/main/java/com/cleo/labs/resttest/JsonComparator.java:216-225 | Returns the engine's value in the current bindings. A script exception gives FAILURE. |
| Session.JsonComparator.CompareNodes | src/main/java/com/cleo/labs/resttest/JsonComparator.java:282-355 | Reports, each once, exactly the comparisons the specification says fail. Afterwards the bindings differ from before at most in `actual`. |
| Session.JsonComparator.Visit | src/main/java/com/cleo/labs/resttest/JsonComparator.java:287-308 | One pass of the loop: what is reported for the popped comparison, plus what it queues, is that comparison's whole share of the specification. |
| Session.JsonComparator.Check | src/main/java/com/cleo/labs/resttest/JsonComparator.java:309-352 | The kind, number, value, array and object rules: what is reported plus what is queued equals `Judge`. |
| Session.JsonComparator.EvalNode | src/main/java/com/cleo/labs/resttest/JsonComparator.java:442-465 | A null tree stays null. Otherwise the result is the tree with every script replaced by its value. |
| Session.FillKept | src/main/java/com/cleo/labs/resttest/JsonComparator.java:446-463 | One pass of the evalNode loop keeps the tree that the work-list will finally produce. |
| Session.WorkKept | src/main/java/com/cleo/labs/resttest/JsonComparator.java:446-463 | One pass of the evalNode loop leaves strictly less work, so the loop ends. |
| Steps.StepResult.constructor | src/main/java/com/cleo/labs/resttest/TestStep.java:27-30 | A new result is ok, not skipped, and has no error list. |
| Steps.StepResult.Error | src/main/java/com/cleo/labs/resttest/TestStep.java:35-41 | The list is created on first use; the message is appended; `ok` and `skip` are unchanged. |
| Steps.AppendedTwice | src/main/java/com/cleo/labs/resttest/TestStep.java:35-41 | Adding messages in two batches is adding them in one, and earlier messages are kept as a prefix. |
| Steps.ReportEach | src/main/java/com/cleo/labs/resttest/TestStep.java:85 | One error per mismatch, in report order, after the existing errors. |
| Steps.ApplySchema | src/main/java/com/cleo/labs/resttest/TestStep.java:78-83 | When the expected response names a `schema`, the compared response tree gains a `schema` field holding that entry's text, as `setSchema` makes `asJson` include it. Otherwise the tree is the response as received. |
| Steps.CompareResponse | src/main/java/com/cleo/labs/resttest/TestStep.java:83-85 | Reports, each once, exactly the mismatches of the expected response against the compared tree. The step is ok exactly when there are none, and each one adds an error. |
| Steps.Run | src/main/java/com/cleo/labs/resttest/TestStep.java:57-94 | The returned result, or the raised exception, is `StepSpec` of the step. The report is what `compareNodes` gives, in the bindings after the request, against the response with its `schema` field set. |
| Steps.StepOutcomeShape | src/main/java/com/cleo/labs/resttest/TestStep.java:57-94 | A finished step is ok exactly when it has no errors. A skipped step is ok. An error list is never empty. |
| Steps.BeforeFailureStops | src/main/java/com/cleo/labs/resttest/TestStep.java:60-64 | A failing before script gives exactly one error. No request is sent, nothing is compared, and no binding changes. |
| Steps.BeforeSuccessSkips | src/main/java/com/cleo/labs/resttest/TestStep.java:65-68 | A before script answering SUCCESS skips the rest and leaves the step ok. |
| Steps.NoRequestNoComparison | src/main/java/com/cleo/labs/resttest/TestStep.java:70-77 | Without a request no response is compared, even when one is expected; only the after script can fail the step. |
| Steps.ComparisonVerdict | src/main/java/com/cleo/labs/resttest/TestStep.java:77-92 | Once compared, the step is ok exactly when nothing mismatched against the response with its `schema` field set, and the after script did not fail. Each mismatch is one error. |
| Steps.AfterOnlyFails | src/main/java/com/cleo/labs/resttest/TestStep.java:87-92 | Only a FAILURE from the after script fails the step, with one error naming the script. |
| Steps.EchoedResponsePasses | src/main/java/com/cleo/labs/resttest/TestStep.java:77-86 | A response equal to the expected tree passes, when the tree has no scripts or Missing in it and any `schema` entry is text. |
| Steps.SchemaFieldMatches | src/main/java/com/cleo/labs/resttest/TestStep.java:78-83 | A `schema` entry given as text (not a script) equals the field that `setSchema` adds, so nothing is reported at `/schema`. |
| Steps.NumericSchemaReported | src/main/java/com/cleo/labs/resttest/TestStep.java:79-83 | A `schema` entry given as a number is compared with its own text, so `/schema` is always reported. |
| Decimal.ValueShow | src/main/java/com/cleo/labs/resttest/TestSequence.java:81-82 | The printed count reads back as the count. |
| Decimal.ShowInjective | src/main/java/com/cleo/labs/resttest/TestSequence.java:81-82 | Different counts print differently. |
| Sequences.CountMessageNamesCounts | src/main/java/com/cleo/labs/resttest/TestSequence.java:81-82 | The parameter-count message determines both counts. |
| Sequences.BindAllLookup | src/main/java/com/cleo/labs/resttest/TestSequence.java:83-86 | Parameter `i` is bound to value `i` when its name is an identifier and no later parameter has the same name. |
| Sequences.BindAllElsewhere | src/main/java/com/cleo/labs/resttest/TestSequence.java:83-86 | A name that is not an identifier, or not a parameter, keeps its binding, or stays unbound. |
| Sequences.BindParameters | src/main/java/com/cleo/labs/resttest/TestSequence.java:84-85 | Binds each parameter through putJson, in index order, up to the first null cell. A null cell raises a null pointer exception out of the loop, after the cells before it are bound. A name that is not an identifier binds nothing. |
| Sequences.NullCellUnbound | src/main/java/com/cleo/labs/resttest/JsonComparator.java:230-237 | The parameter whose cell is null is not bound: `json.toString()` raises before the `var` statement runs, so its old binding stays. |
| Sequences.BindingsLookup | src/main/java/com/cleo/labs/resttest/TestSequence.java:83-86 | A parameter before the first null cell is bound to its cell's value, when its name is an identifier that no later bound parameter repeats. |
| Sequences.MissingFieldEscapes | src/main/java/com/cleo/labs/resttest/Provider.java:82-84 | A provider row has a null cell exactly when its record lacks one of the parameters, and running a sequence on such a row raises out of `run`. |
| Sequences.SequenceResult.constructor | src/main/java/com/cleo/labs/resttest/TestSequence.java:39-42 | A new result is ok, has `failed = -1`, and has no failure and no errors. |
| Sequences.SequenceResult.Error | src/main/java/com/cleo/labs/resttest/TestSequence.java:47-54 | The list is created on first use; the message is appended; nothing else changes. |
| Sequences.PrintTrace | src/main/java/com/cleo/labs/resttest/TestSequence.java:99-105 | One error per printed trace line, in order. |
| Sequences.VerdictOfLoop | src/main/java/com/cleo/labs/resttest/TestSequence.java:87-107 | The sequence is ok exactly when every step ran and passed. Otherwise `failed` is the first step that did not pass, with its errors, or with its exception and trace. |
| Sequences.RunOne | src/main/java/com/cleo/labs/resttest/TestSequence.java:88-106 | One step under try/catch: the outcome is `StepSpec` of the step. The result stays clean on a pass, and records step `i` otherwise. |
| Sequences.Run | src/main/java/com/cleo/labs/resttest/TestSequence.java:75-109 | Differing counts give one error and bind nothing. Equal counts bind the parameters, and then each step runs from the bindings the previous step left. The loop stops right after the first step that does not pass, and the result is `Verdict` of the outcomes. A null parameter cell, when the counts agree, or a null step array raises out of `run` before any step runs; the cells before the null one are bound. |
| Registries.Merge | src/main/java/com/cleo/labs/resttest/TestSequence.java:175 | After a file is put, every id of the file maps to its definition, and every other id keeps its entry. |
| Registries.LookupAfterMerge | src/main/java/com/cleo/labs/resttest/TestSequence.java:175-188 | After a load, an id of the file resolves to the file's definition, and any other id resolves as before. |
| Registries.MergeTwice | src/main/java/com/cleo/labs/resttest/TestSequence.java:175 | Putting the same file twice is putting it once. |
| Registries.MergeKeepsIds | src/main/java/com/cleo/labs/resttest/Provider.java:103 | A load never loses an id. |
| Registries.Registry.constructor | src/main/java/com/cleo/labs/resttest/TestSequence.java:161-162 | The registry starts empty, with nothing loaded. |
| Registries.Registry.Load | src/main/java/com/cleo/labs/resttest/TestSequence.java:170-179 | A location already loaded is a no-op. A read error changes nothing. Otherwise the file is merged in and the location is marked loaded. |
| Registries.Registry.LoadResource | src/main/java/com/cleo/labs/resttest/Provider.java:108-110 | A missing `name.yaml` resource is an error that changes nothing. Otherwise the resource is loaded as by `load(URL)`. |
| Registries.Registry.PutAll | src/main/java/com/cleo/labs/resttest/Provider.java:103 | Puts every definition of the file, and leaves the loaded set alone. |
| Registries.Registry.Get | src/main/java/com/cleo/labs/resttest/Provider.java:111-116 | Succeeds exactly when the id is registered, with its definition. Otherwise it fails with `test id "<id>" not found`. |
| Providers.Row | src/main/java/com/cleo/labs/resttest/Provider.java:82-84 | One cell per parameter, in order. A cell is the record's field of that name, or null when the field is absent. |
| Providers.ObjectsFor | src/main/java/com/cleo/labs/resttest/Provider.java:78-85 | Null or empty parameters raise `parameters not specified`. Null data raises a null pointer exception. Otherwise there is one row per data record, projected onto the parameters. |
| Providers.Objects | src/main/java/com/cleo/labs/resttest/Provider.java:75-77 | Projects onto the provider's own parameters. |
| Providers.RowRebuilds | src/main/java/com/cleo/labs/resttest/Provider.java:82-84 | A row loses nothing: rebuilding a record from it gives the original record restricted to the parameter names. |

## Left out

- The JavaScript engine is an oracle. Its internals and the prelude functions (`expect`, `println`, `yaml`, `debug`) are not modelled.
- Scripts.Evaluate: a script cannot change the bindings in this model, although the source engine keeps the `var` assignments a script makes, to chain scripts (JsonComparator.java:488-495). Within one `compareNodes` the field comparisons run in HashMap order, so with script-made bindings the report would depend on that order, which the multiset specification abstracts away. So only `putJson` changes the bindings, and Session.JsonComparator.CompareNodes promises that the bindings afterwards differ from before at most in `actual`.
- Session.JsonComparator.PutJson binds any tree, Missing included. The source evaluates `var name=<json text>`. For a Missing node that text is not valid JavaScript, so the exception is logged and swallowed, and the old binding stays. The model binds Missing instead.
- Scripts.IsIdentifier accepts ASCII identifiers only. JavaScript also accepts names with non-ASCII letters, which the model treats as rejected. A name that is not an identifier but still forms a valid statement (`a=1,b`) declares other variables in the source; the model binds nothing for it.
- Session.JsonComparator.EvalNode requires `ResultsInert(engine)`: an array or object a script returns has no script below its root. The source also rewrites scripts inside a script's result. Without a bound on the engine that walk need not end, so the model excludes it.
- Steps.Run, Sequences.RunOne and Sequences.Run carry the same `ResultsInert` requirement, because they evaluate the request template through `evalNode`.
- Steps.Run does not model the validation against the schema (TestStep.java:80): RestAssured's schema matcher is foreign code, and the model proceeds as if the body passed. The `schema` field that `setSchema` adds to the compared tree (TestStep.java:81) is modelled.
- Json.AsText writes an integral double as its digits followed by `.0`. Java switches to exponent notation from 10^7 on.
- MatcherFacts.NumbersMatchIff: mapping a script's Java value to a tree (`mapper.convertValue`) is part of the engine oracle. Non-integral numbers are opaque `Fraction` text, compared by equality only. In the source, two doubles in the long range match when their integer parts agree (`canConvertToLong` holds for every such double and `longValue` truncates), so 1.5 matches 1.9; the model does not match them.
- Comparison paths are step lists, not `JsonPointer` text. `Comparison.toString` is the parameter `describe`.
- Session.JsonComparator.CompareNodes states its report as a multiset. Field-name iteration order (a HashMap) and therefore report order are not modelled.
- Trees are values, with no aliasing. In the source, `evalNode` edits the step's request template in place. So a step run a second time sends the values computed the first time; the model starts every run from the template.
- The YAML reader is the parameter `parse`, HTTP is the parameter `http`, and the classpath lookup is `resolve`. The `yaml()` helper and the request/response conversions (`Request`, `Response`) are not part of this model.
- Registries.Registry.LoadResource reports a missing resource with its own message text. Guava's exact message is not modelled.
- The two static registries are one `Registry` object each. `synchronized` and concurrency are not modelled, and neither is the "loading" console line.
- Null elements inside the `steps` or `data` arrays are not modelled; only a null array is.
- TestStep.Result and TestSequence.Result `forEachError` iterate for the caller only and are not modelled.
