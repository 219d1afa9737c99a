/**
 * The registries of TestSequence and Provider: a map from test id to the
 * loaded definition, and the set of locations already loaded. The YAML
 * reader and the resource lookup are parameters.
 */
module Registries {
  import opened Wrappers

  /** A resource location (java.net.URL), compared as text. */
  type Url = string

  /** The registry after the definitions of one file are put into it: every
      name in the file maps to the file's definition, every other name keeps
      its entry. */
  function Merge<T>(entries: map<string, T>, file: map<string, T>): (m: map<string, T>)
    ensures m.Keys == entries.Keys + file.Keys
    ensures forall id | id in file :: m[id] == file[id]
    ensures forall id | id in entries && id !in file :: m[id] == entries[id]
  {
    entries + file
  }

  /** The error raised by get for an unknown id. */
  function NotFound(id: string): string {
    "test id \"" + id + "\" not found"
  }

  /** get, as a function of the registry's entries. */
  function Lookup<T>(entries: map<string, T>, id: string): Result<T, string> {
    if id in entries then Ok(entries[id]) else Err(NotFound(id))
  }

  /** After a file is merged, its ids resolve to its definitions and the other
      ids resolve as before. */
  lemma LookupAfterMerge<T>(entries: map<string, T>, file: map<string, T>, id: string)
    ensures Lookup(Merge(entries, file), id) == if id in file then Ok(file[id]) else Lookup(entries, id)
  {
  }

  /** Merging the same file twice is merging it once. */
  lemma MergeTwice<T>(entries: map<string, T>, file: map<string, T>)
    ensures Merge(Merge(entries, file), file) == Merge(entries, file)
  {
  }

  /** Merging never loses an id. */
  lemma MergeKeepsIds<T>(entries: map<string, T>, file: map<string, T>, id: string)
    requires Lookup(entries, id).Ok?
    ensures Lookup(Merge(entries, file), id).Ok?
  {
  }

  /** One registry (the static `registry` map and `loaded` set of its class). */
  class Registry<T> {
    var entries: map<string, T>
    var loaded: set<Url>

    constructor()
      ensures entries == map[] && loaded == {}
    {
      entries, loaded := map[], {};
    }

    /**
     * load(URL): a location already loaded is not read again; otherwise the
     * file is read (`parse`, which may raise an IOException) and its
     * definitions are put into the registry before the location is marked
     * loaded.
     */
    method Load(u: Url, parse: Url -> Result<map<string, T>, string>) returns (r: Result<(), string>)
      modifies this
      ensures u in old(loaded) ==> r == Ok(()) && entries == old(entries) && loaded == old(loaded)
      ensures u !in old(loaded) && parse(u).Err? ==>
                r == Err(parse(u).error) && entries == old(entries) && loaded == old(loaded)
      ensures u !in old(loaded) && parse(u).Ok? ==>
                r == Ok(()) && entries == Merge(old(entries), parse(u).value) && loaded == old(loaded) + {u}
    {
      if u !in loaded {
        var tests := parse(u);
        if tests.Err? {
          return Err(tests.error);
        }
        PutAll(tests.value);
        loaded := loaded + {u};
      }
      return Ok(());
    }

    /**
     * load(String): the resource `name.yaml` is looked up (`resolve`; a
     * missing resource raises) and loaded.
     */
    method LoadResource(name: string, resolve: string -> Option<Url>, parse: Url -> Result<map<string, T>, string>)
      returns (r: Result<(), string>)
      modifies this
      ensures resolve(name + ".yaml").None? ==> r.Err? && entries == old(entries) && loaded == old(loaded)
      ensures resolve(name + ".yaml").Some? ==>
                var u := resolve(name + ".yaml").value;
                && (u in old(loaded) ==> r == Ok(()) && entries == old(entries) && loaded == old(loaded))
                && (u !in old(loaded) && parse(u).Err? ==>
                      r == Err(parse(u).error) && entries == old(entries) && loaded == old(loaded))
                && (u !in old(loaded) && parse(u).Ok? ==>
                      r == Ok(()) && entries == Merge(old(entries), parse(u).value) && loaded == old(loaded) + {u})
    {
      var found := resolve(name + ".yaml");
      if found.None? {
        return Err("resource " + name + ".yaml not found.");
      }
      r := Load(found.value, parse);
    }

    /** The forEach that puts every definition of a file into the registry. */
    method PutAll(file: map<string, T>)
      modifies this
      ensures entries == Merge(old(entries), file) && loaded == old(loaded)
    {
      var rest := file.Keys;
      while rest != {}
        invariant rest <= file.Keys
        invariant entries == Merge(old(entries), map id | id in file.Keys - rest :: file[id])
        invariant loaded == old(loaded)
        decreases rest
      {
        var name :| name in rest;
        ghost var done := map id | id in file.Keys - rest :: file[id];
        entries := entries[name := file[name]];
        rest := rest - {name};
        assert (map id | id in file.Keys - rest :: file[id]) == done[name := file[name]];
      }
      assert (map id | id in file.Keys - rest :: file[id]) == file;
    }

    /** get: the definition registered under `id`, or an IOException naming it. */
    function Get(id: string): (r: Result<T, string>)
      reads this
      ensures r.Ok? <==> id in entries
      ensures r.Ok? ==> r.value == entries[id]
      ensures r.Err? ==> r.error == NotFound(id)
    {
      Lookup(entries, id)
    }
  }
}
