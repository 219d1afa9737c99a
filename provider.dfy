/**
 * Provider: a table of data rows (JSON objects) projected onto a list of
 * parameter names, one cell per name, for a data-driven test.
 */
module Providers {
  import opened Wrappers
  import opened Json

  /** A provider as read from YAML; every part may be absent (a Java null). */
  datatype Provider = Provider(
    description: Option<string>,
    parameters: Option<seq<string>>,
    data: Option<seq<map<string, Node>>>)

  /** The exceptions getObjects can raise. */
  datatype Failure = IllegalArgument(message: string) | NullPointer

  /** One row: cell `j` is the record's field named by parameter `j`, or null. */
  function Row(record: map<string, Node>, parameters: seq<string>): (row: seq<Option<Node>>)
    ensures |row| == |parameters|
    ensures forall j | 0 <= j < |parameters| :: row[j].Some? <==> parameters[j] in record
    ensures forall j | 0 <= j < |parameters| :: row[j].Some? ==> row[j].value == record[parameters[j]]
  {
    seq(|parameters|, j requires 0 <= j < |parameters| =>
      if parameters[j] in record then Some(record[parameters[j]]) else None)
  }

  /** getObjects(parameters). */
  function ObjectsFor(p: Provider, parameters: Option<seq<string>>): (r: Result<seq<seq<Option<Node>>>, Failure>)
    ensures parameters.None? || parameters.value == [] ==> r == Err(IllegalArgument("parameters not specified"))
    ensures parameters.Some? && parameters.value != [] && p.data.None? ==> r == Err(NullPointer)
    ensures parameters.Some? && parameters.value != [] && p.data.Some? ==>
              && r.Ok? && |r.value| == |p.data.value|
              && forall i | 0 <= i < |r.value| :: r.value[i] == Row(p.data.value[i], parameters.value)
  {
    if parameters.None? || |parameters.value| == 0 then
      Err(IllegalArgument("parameters not specified"))
    else if p.data.None? then
      Err(NullPointer)
    else
      var rows := p.data.value;
      Ok(seq(|rows|, i requires 0 <= i < |rows| => Row(rows[i], parameters.value)))
  }

  /** getObjects(): the projection onto the provider's own parameters. */
  function Objects(p: Provider): (r: Result<seq<seq<Option<Node>>>, Failure>)
    ensures r == ObjectsFor(p, p.parameters)
  {
    ObjectsFor(p, p.parameters)
  }

  /** The record a row describes: the named fields present in the row. */
  function Rebuild(parameters: seq<string>, row: seq<Option<Node>>): map<string, Node>
    requires |row| == |parameters|
  {
    if parameters == [] then map[]
    else
      var n := |parameters|;
      var before := Rebuild(parameters[..n - 1], row[..n - 1]);
      if row[n - 1].Some? then before[parameters[n - 1] := row[n - 1].value] else before
  }

  /** The record restricted to a set of names. */
  function Restrict(record: map<string, Node>, names: set<string>): map<string, Node> {
    map k | k in record && k in names :: record[k]
  }

  /** A row holds exactly the record's fields among the parameters: rebuilding
      it gives the record restricted to the parameter names. */
  lemma {:induction false} RowRebuilds(record: map<string, Node>, parameters: seq<string>)
    ensures Rebuild(parameters, Row(record, parameters)) == Restrict(record, set j | 0 <= j < |parameters| :: parameters[j])
    decreases |parameters|
  {
    var names := set j | 0 <= j < |parameters| :: parameters[j];
    if parameters == [] {
      assert Restrict(record, names) == map[];
    } else {
      var n := |parameters|;
      var front := parameters[..n - 1];
      var row := Row(record, parameters);
      assert row[..n - 1] == Row(record, front);
      RowRebuilds(record, front);
      var frontNames := set j | 0 <= j < |front| :: front[j];
      assert names == frontNames + {parameters[n - 1]} by {
        forall k | k in names ensures k in frontNames + {parameters[n - 1]} {
          var j :| 0 <= j < n && parameters[j] == k;
          if j < n - 1 {
            assert front[j] == k;
          }
        }
      }
    }
  }
}
