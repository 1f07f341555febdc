/**
 * The parts of an API description the documentation generator reads. The
 * description is supplied fully built and is never changed by the generator.
 */
module ApiModels {
  import opened Wrappers
  import SchemaCatalog

  /** An operation (create, read, update, delete or patch); its details are not read. */
  datatype Operation = Operation(description: string)

  datatype Action = Action(name: string)

  datatype Query = Query(id: string)

  /**
   * The operations attached to one path (or one version of a path). A Java `null`
   * is `None`; `actions` and `queries` are arrays that may be null or empty.
   */
  datatype Resource = Resource(
    resourceSchema: Option<SchemaCatalog.Schema>,
    create: Option<Operation>,
    read: Option<Operation>,
    update: Option<Operation>,
    delete: Option<Operation>,
    patch: Option<Operation>,
    actions: Option<seq<Action>>,
    queries: Option<seq<Query>>)

  /** A path whose resource differs per version string. */
  datatype VersionedPath = VersionedPath(versions: map<string, Resource>)

  /**
   * The path table. The source declares it over a generic element type and
   * discovers the element type by casting; here the kind is explicit.
   * `Unsupported` is a non-empty table whose elements are neither resources nor
   * versioned paths; it carries the runtime class name the error message reports.
   * An empty table of any element type is `Flat(map[])`: the flat loop never
   * touches an element, so no cast fails.
   */
  datatype PathTable =
    | Flat(paths: map<string, Resource>)
    | Versioned(vpaths: map<string, VersionedPath>)
    | Unsupported(className: string)

  /** The error catalog; the generator only tests it for null. */
  datatype Errors = Errors(names: set<string>)

  datatype ApiDescription = ApiDescription(
    id: string,
    description: string,
    paths: Option<PathTable>,
    definitions: Option<SchemaCatalog.Definitions>,
    errors: Option<Errors>)
}
