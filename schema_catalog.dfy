/**
 * The schema catalog of an API description (`Definitions`) and the builder that
 * fills it. The builder owns one mutable hash map; `build` hands that very map to
 * the catalog, so the two share it.
 */
module SchemaCatalog {
  import opened Wrappers

  /** A schema body; its JSON content is not interpreted here. */
  datatype Schema = Schema(json: string)

  /** The exceptions the builder and the catalog throw. */
  datatype CatalogError =
    | InvalidName    // IllegalArgumentException: empty name or one with whitespace
    | DuplicateName  // IllegalStateException: the name is already mapped
    | NullSchema     // `checkNotNull` throws: null schema
    | NoDefinitions  // ApiValidationException: nothing was put before build

  /** The characters Java's `Character.isWhitespace` accepts. */
  predicate IsWhitespace(c: char)
  {
    || c == ' ' || c == '\t' || c == '\n' || c == '\U{B}' || c == '\U{C}' || c == '\r'
    || ('\U{1C}' <= c <= '\U{1F}')
    || c == '\U{1680}'
    || ('\U{2000}' <= c <= '\U{200A}' && c != '\U{2007}')
    || c == '\U{2028}' || c == '\U{2029}' || c == '\U{205F}' || c == '\U{3000}'
  }

  predicate ContainsWhitespace(s: string)
  {
    exists i :: 0 <= i < |s| && IsWhitespace(s[i])
  }

  /** A name the builder accepts: non-empty and free of whitespace. */
  predicate ValidName(name: string)
  {
    |name| != 0 && !ContainsWhitespace(name)
  }

  /**
   * The effect of `Builder.put` on the builder's map: the name is checked first
   * (a null name counts as empty), then uniqueness, then the schema's null check,
   * and only then is the entry added.
   */
  function PutEntry(m: map<string, Schema>, name: Option<string>, schema: Option<Schema>)
    : (r: Result<map<string, Schema>, CatalogError>)
    ensures name.None? || !ValidName(name.value) ==> r == Failure(InvalidName)
    ensures name.Some? && ValidName(name.value) && name.value in m ==> r == Failure(DuplicateName)
    ensures name.Some? && ValidName(name.value) && name.value !in m && schema.None? ==> r == Failure(NullSchema)
    ensures r.Success? <==> name.Some? && ValidName(name.value) && name.value !in m && schema.Some?
    ensures r.Success? ==> r.value.Keys == m.Keys + {name.value} && r.value[name.value] == schema.value
    ensures r.Success? ==> forall n :: n in m ==> r.value[n] == m[n]
  {
    if name.None? || |name.value| == 0 || ContainsWhitespace(name.value) then Failure(InvalidName)
    else if name.value in m then Failure(DuplicateName)
    else if schema.None? then Failure(NullSchema)
    else Success(m[name.value := schema.value])
  }

  /** A chain of `put` calls with non-null names; the first exception ends the chain. */
  function PutAll(m: map<string, Schema>, puts: seq<(string, Option<Schema>)>)
    : Result<map<string, Schema>, CatalogError>
    decreases |puts|
  {
    if puts == [] then Success(m)
    else match PutEntry(m, Some(puts[0].0), puts[0].1)
      case Failure(e) => Failure(e)
      case Success(m') => PutAll(m', puts[1..])
  }

  /** The names a chain of puts uses. */
  function PutNames(puts: seq<(string, Option<Schema>)>): (r: set<string>)
    ensures forall i :: 0 <= i < |puts| ==> puts[i].0 in r
    decreases |puts|
  {
    if puts == [] then {} else {puts[0].0} + PutNames(puts[1..])
  }

  /** No two puts of the chain use the same name. */
  predicate DistinctNames(puts: seq<(string, Option<Schema>)>)
    decreases |puts|
  {
    puts == [] || (puts[0].0 !in PutNames(puts[1..]) && DistinctNames(puts[1..]))
  }

  /**
   * Puts of valid names with non-null schemas succeed exactly when the names are
   * distinct and new; the resulting map then holds exactly the old entries and
   * each name with the schema put under it.
   */
  lemma {:induction false} PutAllValid(m: map<string, Schema>, puts: seq<(string, Option<Schema>)>)
    requires forall i :: 0 <= i < |puts| ==> ValidName(puts[i].0) && puts[i].1.Some?
    ensures PutAll(m, puts).Success? <==> DistinctNames(puts) && PutNames(puts) !! m.Keys
    ensures PutAll(m, puts).Success? ==>
      var r := PutAll(m, puts).value;
      && r.Keys == m.Keys + PutNames(puts)
      && (forall i :: 0 <= i < |puts| ==> r[puts[i].0] == puts[i].1.value)
      && (forall n :: n in m ==> r[n] == m[n])
    decreases |puts|
  {
    if puts != [] {
      var name := puts[0].0;
      var rest := puts[1..];
      assert forall i :: 0 <= i < |rest| ==> rest[i] == puts[i + 1];
      if name !in m {
        var m' := m[name := puts[0].1.value];
        PutAllValid(m', rest);
        if PutAll(m, puts).Success? {
          var r := PutAll(m, puts).value;
          forall i | 0 <= i < |puts|
            ensures r[puts[i].0] == puts[i].1.value
          {
            if i > 0 {
              assert puts[i] == rest[i - 1];
            }
          }
        }
      }
    }
  }

  /** The JDK hash map that the builder creates and the catalog later shares. */
  class SchemaMap {
    var entries: map<string, Schema>

    constructor ()
      ensures entries == map[]
    {
      entries := map[];
    }
  }

  /** `Definitions.Builder`: accumulates named schemas, then builds the catalog. */
  class Builder {
    const definitions: SchemaMap

    constructor ()
      ensures fresh(definitions) && definitions.entries == map[]
    {
      definitions := new SchemaMap();
    }

    /**
     * `put(name, schema)`: on success adds exactly `name -> schema` and returns this
     * builder; on any failure the map is left as it was.
     */
    method Put(name: Option<string>, schema: Option<Schema>) returns (r: Result<Builder, CatalogError>)
      modifies definitions
      ensures name.None? || !ValidName(name.value) ==> r == Failure(InvalidName)
      ensures name.Some? && ValidName(name.value) && name.value in old(definitions.entries) ==> r == Failure(DuplicateName)
      ensures name.Some? && ValidName(name.value) && name.value !in old(definitions.entries) && schema.None?
        ==> r == Failure(NullSchema)
      ensures r.Success? <==> PutEntry(old(definitions.entries), name, schema).Success?
      ensures r.Success? ==> r.value == this
      ensures definitions.entries ==
        match PutEntry(old(definitions.entries), name, schema)
        case Success(m) => m
        case Failure(_) => old(definitions.entries)
    {
      if name.None? || |name.value| == 0 || ContainsWhitespace(name.value) {
        return Failure(InvalidName);
      }
      if name.value in definitions.entries {
        return Failure(DuplicateName);
      }
      if schema.None? {
        return Failure(NullSchema);
      }
      definitions.entries := definitions.entries[name.value := schema.value];
      return Success(this);
    }

    /**
     * `build()`: fails when nothing was put; otherwise returns a new catalog that
     * shares this builder's map rather than a copy of it.
     */
    method Build() returns (r: Result<Definitions, CatalogError>)
      ensures r.Failure? <==> definitions.entries == map[]
      ensures r.Failure? ==> r.error == NoDefinitions
      ensures r.Success? ==> fresh(r.value) && r.value.definitions == definitions
    {
      if definitions.entries == map[] {
        return Failure(NoDefinitions);
      }
      var d := new Definitions(this);
      return Success(d);
    }
  }

  /** The catalog: a non-empty mapping from schema names to schemas. */
  class Definitions {
    const definitions: SchemaMap

    /** The private constructor; its emptiness check is made by `Build`, its only caller. */
    constructor (builder: Builder)
      requires builder.definitions.entries != map[]
      ensures definitions == builder.definitions
    {
      definitions := builder.definitions;
    }

    /** `get(name)`: the schema put under `name`, or null when there is none or the name is null. */
    function Get(name: Option<string>): (r: Option<Schema>)
      reads definitions
      ensures r.Some? <==> name.Some? && name.value in Names()
      ensures r.Some? ==> r.value == definitions.entries[name.value]
    {
      if name.Some? && name.value in definitions.entries then Some(definitions.entries[name.value]) else None
    }

    /** `getNames()`: the names of all schemas put. */
    function Names(): (r: set<string>)
      reads definitions
      ensures forall n :: n in r <==> n in definitions.entries
    {
      definitions.entries.Keys
    }
  }
}
