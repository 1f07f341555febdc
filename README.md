# API descriptor: AsciiDoc generator and schema definitions

This project models two parts of the ForgeRock API-descriptor library.

- **`ApiDocGenerator`** turns an API description into a tree of AsciiDoc files:
  - a root `index` file;
  - a `paths` aggregate that includes one file per path, visited in ascending name order;
  - for a versioned table, one file per path that includes one file per version, visited in ascending version order;
  - below each path or version, a resource file with one heading per part the resource has (resource schema, create, read, update, delete, patch, actions, queries).

  Any `IOException` while writing a file stops generation. An unsupported path-table type stops it with its own error.
- **`Definitions`** is the catalog of named JSON schemas.
  - `Definitions.Builder.put` accepts only names that are non-empty, free of whitespace, unique, and given a non-null schema.
  - `build` refuses an empty catalog.
  - `get` and `getNames` read the catalog.

## How it is modelled

- The generator is a class `DocGeneration.ApiDocGenerator`. Its mutable state is `written`, the log of (file, document) writes that landed, in order.
- Each Java method becomes a method that appends to that log. Each method is proved against a pure plan in `DocPlan`:
  - `FlatPlan`, `VersionedPlan` and `ExecutePlan` list the writes the method makes when no write fails;
  - `AsciiDocModel.Landed(plan, refuses)` is the part of a plan written before the first refused file. That is where a Java `IOException` stops the run.
- `LexOrder` models `String.compareTo` and sorting a copy of a key set (`new ArrayList<>(keys)` followed by `Collections.sort`). `SortNames` is proved to return the unique strictly sorted list of the keys.
- `SchemaCatalog` models `Definitions`:
  - the builder's `HashMap` is an object `SchemaMap`. `build` hands that same object to the catalog, so the two share it, as in the source;
  - `PutEntry` and `PutAll` are the pure definitions of one `put` and of a chain of them.
- Java `null` is `Option.None`: a missing paths table, definitions or errors summary, the output directory, a summary's file name, a schema, a schema name passed to `put` or `get`, and the result of `get`. A thrown exception is `Result.Failure` or `Outcome.Fail`, carrying a `DocError` or `CatalogError`.

## Model

| member | source | states |
|---|---|---|
| DocGeneration.ApiDocGenerator.Create | api-descriptor/src/main/java/com/forgerock/api/markup/ApiDocGenerator.java:49-51 | A null output directory fails with `OutputDirRequired`. Otherwise the result is a fresh generator for that directory, with an empty log. |
| DocGeneration.ApiDocGenerator.constructor | api-descriptor/src/main/java/com/forgerock/api/markup/ApiDocGenerator.java:49-51 | Stores the output directory, the name normaliser and the file system's refusals. Starts with an empty log. |
| DocGeneration.ApiDocGenerator.ToFile | api-descriptor/src/main/java/com/forgerock/api/markup/ApiDocGenerator.java:120-121 | The document is appended to the log exactly when the file system accepts the file name. The result says whether it was. |
| DocGeneration.ApiDocGenerator.OutputResource | api-descriptor/src/main/java/com/forgerock/api/markup/ApiDocGenerator.java:230-281 | Writes `ResourceWrite` (file `normalizeName(parent, "resource").adoc`, a heading one level below the parent per part present) if the file is accepted and returns its name. Otherwise it appends nothing and fails with `UnableToOutputDocFile`. |
| DocGeneration.ApiDocGenerator.OutputLeaf | api-descriptor/src/main/java/com/forgerock/api/markup/ApiDocGenerator.java:141-151 | One iteration of the path loop (also the version loop at lines 191-201): the resource file, then the child's file titled with its name and including the resource file. It stops at the first refused write and returns the child file on success. |
| DocGeneration.ApiDocGenerator.OutputPaths | api-descriptor/src/main/java/com/forgerock/api/markup/ApiDocGenerator.java:133-161 | The log grows by exactly the landed prefix of `FlatPlan`: every path in ascending order, then the aggregate. It succeeds, returning `PathsFile`, exactly when every write of the plan lands. Otherwise it fails with `UnableToOutputDocFile`. |
| DocGeneration.ApiDocGenerator.OutputVersionedPath | api-descriptor/src/main/java/com/forgerock/api/markup/ApiDocGenerator.java:181-212 | For one versioned path, the log grows by the landed prefix of `VersionedPathWrites`: each version in ascending order, then the path file including every version file. It succeeds exactly when all of these land. |
| DocGeneration.ApiDocGenerator.OutputVersionedPaths | api-descriptor/src/main/java/com/forgerock/api/markup/ApiDocGenerator.java:172-219 | The log grows by exactly the landed prefix of `VersionedPlan`: every path in ascending order, then the aggregate. It succeeds, returning `PathsFile`, exactly when every write of the plan lands. |
| DocGeneration.ApiDocGenerator.OutputDefinitions | api-descriptor/src/main/java/com/forgerock/api/markup/ApiDocGenerator.java:291-297 | Returns null whether or not there are definitions. No summary file is written. |
| DocGeneration.ApiDocGenerator.OutputErrors | api-descriptor/src/main/java/com/forgerock/api/markup/ApiDocGenerator.java:307-313 | Returns null whether or not there are errors. No summary file is written. |
| DocGeneration.ApiDocGenerator.OutputRoot | api-descriptor/src/main/java/com/forgerock/api/markup/ApiDocGenerator.java:97-123 | Writes the file `normalizeName(namespace, "index") + ".adoc"` with the title, the id, the description, and then an include for each summary file name that is not null, in paths, definitions, errors order. It appends nothing and fails if the file is refused. |
| DocGeneration.ApiDocGenerator.Execute | api-descriptor/src/main/java/com/forgerock/api/markup/ApiDocGenerator.java:59-84 | The log grows by exactly the landed prefix of `ExecutePlan`. The outcome is: an unsupported table fails with `UnsupportedPathsType(className)` and writes nothing; otherwise it passes exactly when every planned write lands and fails with `UnableToOutputDocFile` if any does not. |
| LexOrder.LexLe | api-descriptor/src/main/java/com/forgerock/api/markup/ApiDocGenerator.java:137-138 | The order `Collections.sort` uses on path and version names, `String.compareTo`, character by character. A string sorts at or before every string it is a prefix of. |
| LexOrder.LexLeCompareTo | api-descriptor/src/main/java/com/forgerock/api/markup/ApiDocGenerator.java:137-138 | `LexLe` holds exactly when the first string is a prefix of the second, or when it has the smaller character at the first index where they differ. That is the order `String.compareTo` documents. |
| LexOrder.SortNames | api-descriptor/src/main/java/com/forgerock/api/markup/ApiDocGenerator.java:137-138 | The sorted copy of a key set equals `SortedKeys`: strictly ascending, with exactly the keys. |
| LexOrder.SortedKeysUnique | api-descriptor/src/main/java/com/forgerock/api/markup/ApiDocGenerator.java:137-138 | A strictly sorted list with exactly the keys of a set is `SortedKeys` of that set, so the visiting order is determined. |
| LexOrder.LexLeTotal | api-descriptor/src/main/java/com/forgerock/api/markup/ApiDocGenerator.java:137-138 | Any two strings are comparable under `compareTo` order. |
| LexOrder.LexLeAntisymmetric | api-descriptor/src/main/java/com/forgerock/api/markup/ApiDocGenerator.java:137-138 | Two strings each at most the other are equal. |
| LexOrder.LexLeTransitive | api-descriptor/src/main/java/com/forgerock/api/markup/ApiDocGenerator.java:137-138 | `compareTo` order is transitive. |
| DocPlan.ResourceDocHeadings | api-descriptor/src/main/java/com/forgerock/api/markup/ApiDocGenerator.java:234-276 | A resource document holds exactly one heading per part the resource has, in the fixed section order. A heading appears if and only if its part is present. |
| DocPlan.ResourceDocLevels | api-descriptor/src/main/java/com/forgerock/api/markup/ApiDocGenerator.java:234-276 | Every heading of a resource document is one level below the parent. The document is empty if and only if the resource has no part. |
| DocPlanProperties.ReadOnlyResourceDoc | api-descriptor/src/main/java/com/forgerock/api/markup/ApiDocGenerator.java:248-251 | A resource with only a read operation gets a single "Read" heading. |
| DocPlanProperties.TreeWritesShape | api-descriptor/src/main/java/com/forgerock/api/markup/ApiDocGenerator.java:139-160 | Below a node, the writes alternate resource file and child file for each child in order, and end with the node's file. |
| DocPlanProperties.TreeChildrenInOrder | api-descriptor/src/main/java/com/forgerock/api/markup/ApiDocGenerator.java:139-160 | Of two sorted children, the one that sorts first has its file written first and included first in the node's file. |
| DocPlanProperties.FlatPathsInAscendingOrder | api-descriptor/src/main/java/com/forgerock/api/markup/ApiDocGenerator.java:133-160 | Of two paths of a flat table, the smaller one's path file is written first and included first in the aggregate. |
| DocPlanProperties.VersionsInAscendingOrder | api-descriptor/src/main/java/com/forgerock/api/markup/ApiDocGenerator.java:187-209 | Of two versions of a path, the smaller one's version file is written first and included first in the path file. |
| DocPlanProperties.VersionedPathsInAscendingOrder | api-descriptor/src/main/java/com/forgerock/api/markup/ApiDocGenerator.java:172-219 | Of two paths of a versioned table, the aggregate `paths` file (the last write of `outputVersionedPaths`) includes the path file of the smaller one before the other's. |
| DocPlanProperties.EmptyTableWritesTitleOnly | api-descriptor/src/main/java/com/forgerock/api/markup/ApiDocGenerator.java:64-70 | An empty table, flat or versioned, writes only the aggregate, which holds only its title. So both readings of an empty table agree. |
| DocPlanProperties.ExecutePlanResolved | api-descriptor/src/main/java/com/forgerock/api/markup/ApiDocGenerator.java:59-84 | In the planned writes, every file a document includes has been written before that document. |
| DocPlanProperties.ExecuteKeepsLogResolved | api-descriptor/src/main/java/com/forgerock/api/markup/ApiDocGenerator.java:59-84 | However far `execute` gets before a write fails, a log whose includes were all resolved stays so. |
| DocPlanProperties.RootWrittenLast | api-descriptor/src/main/java/com/forgerock/api/markup/ApiDocGenerator.java:59-84 | Unless the table is unsupported, the root file is the last write. It includes the paths aggregate exactly when there is a path table. |
| DocPlanProperties.RootIncludes | api-descriptor/src/main/java/com/forgerock/api/markup/ApiDocGenerator.java:110-118 | Without definitions and errors summaries, the root includes exactly the paths file when one is given. |
| DocPlanProperties.TwoFlatPathsExample | api-descriptor/src/main/java/com/forgerock/api/markup/ApiDocGenerator.java:133-160 | A table with paths "b" and "a" writes five files. Path "a" comes first, and the aggregate includes "a" then "b". |
| DocPlanProperties.TwoVersionsExample | api-descriptor/src/main/java/com/forgerock/api/markup/ApiDocGenerator.java:181-212 | A path with versions "2.0" and "1.0" writes five files. Version "1.0" comes first, and the path file includes "1.0" then "2.0". |
| DocPlanProperties.PetstoreExample | api-descriptor/src/main/java/com/forgerock/api/markup/ApiDocGenerator.java:59-84 | A one-path, read-only description yields the resource, path, aggregate and root files, in that order. |
| AsciiDocModel.Landed | api-descriptor/src/main/java/com/forgerock/api/markup/ApiDocGenerator.java:81-83 | The landed writes are a prefix of the plan. Each landed write was accepted, and the first write not landed was refused. |
| AsciiDocModel.LandedConcat | api-descriptor/src/main/java/com/forgerock/api/markup/ApiDocGenerator.java:81-83 | Running two plans in sequence lands the second only once the whole first has landed. |
| AsciiDocModel.LandedStopsAt | api-descriptor/src/main/java/com/forgerock/api/markup/ApiDocGenerator.java:81-83 | A refused write after accepted ones ends the run exactly there. |
| SchemaCatalog.PutEntry | api-descriptor/src/main/java/com/forgerock/api/models/Definitions.java:106-116 | Checks in source order: a null, empty or whitespace name fails, then a duplicate, then a null schema. Otherwise exactly this name is added with this schema, and the old entries are unchanged. |
| SchemaCatalog.PutAllValid | api-descriptor/src/main/java/com/forgerock/api/models/Definitions.java:106-116 | A chain of puts with valid names and schemas succeeds if and only if the names are distinct and new. The result then maps each name to the schema put under it and keeps the old entries. |
| SchemaCatalog.Builder.constructor | api-descriptor/src/main/java/com/forgerock/api/models/Definitions.java:91-97 | A new builder owns a fresh empty map. |
| SchemaCatalog.Builder.Put | api-descriptor/src/main/java/com/forgerock/api/models/Definitions.java:106-116 | The same errors as `PutEntry`. On success it returns this builder and the map becomes `PutEntry`'s result. On failure the map is unchanged. |
| SchemaCatalog.Builder.Build | api-descriptor/src/main/java/com/forgerock/api/models/Definitions.java:38-44 | Fails with `NoDefinitions` if and only if nothing was put. Otherwise it returns a fresh catalog sharing the builder's map. |
| SchemaCatalog.Definitions.constructor | api-descriptor/src/main/java/com/forgerock/api/models/Definitions.java:38-40 | The catalog uses the builder's map itself, not a copy. |
| SchemaCatalog.Definitions.Get | api-descriptor/src/main/java/com/forgerock/api/models/Definitions.java:63-65 | Returns a schema if and only if the name is not null and is in the catalog, and it is the schema mapped to that name. |
| SchemaCatalog.Definitions.Names | api-descriptor/src/main/java/com/forgerock/api/models/Definitions.java:73-75 | Exactly the names in the catalog. |

## Left out

- `AsciiDoc` is not part of this model:
  - `AsciiDoc.normalizeName` is a parameter (`Normalizer`), not interpreted;
  - the markup a document renders to, and `toFile`'s serialisation, are abstracted to lists of elements (titles, text, includes).
- The file system is the predicate `refuses`. A refused file is not written at all: partial files, directory creation and the output directory's path are not modelled.
- `execute` discovers the table's element type by two casts. Here the table is a variant: `Flat`, `Versioned` or `Unsupported`.
  - A table whose elements mix kinds, where a cast would fail after some files were written, is not modelled.
  - An empty table takes the flat branch, as in the source, and `EmptyTableWritesTitleOnly` shows both branches write the same thing.
- DocGeneration.ApiDocGenerator.Execute: the root is not written when the path table is unsupported. The exception at lines 72-73 leaves `execute` before `outputRoot`.
- DocGeneration.ApiDocGenerator.Execute: that the log stays resolved is stated by the lemma `ExecuteKeepsLogResolved` about the plan, not as a postcondition of the method.
- DocGeneration.ApiDocGenerator.OutputVersionedPath is the inner loop of `outputVersionedPaths` (lines 181-212), split into its own method. The nested loops keep the same order of writes.
- LexOrder.LexLe orders strings by `char` values. Java compares UTF-16 code units, which coincides for characters below U+10000. Surrogate pairs are not modelled.
- The description's id and description text, and the path and version names, are plain strings: a null there is not modelled.
- SchemaCatalog.ValidName: `isEmpty` is taken as null (checked in `PutEntry`) or length zero. Whitespace is the set of characters `Character.isWhitespace` accepts.
- SchemaCatalog.Definitions.constructor: the emptiness check of lines 41-43 is made by `Builder.Build`, the constructor's only caller. The constructor requires a non-empty map instead of throwing.
- `Definitions.getDefinitions` (JSON serialisation) and the static factory `definitions()` are not modelled. The factory only calls the builder's constructor.
- Mutating the builder after `build` changes the catalog too, because the map is shared. The model shares the same object, but no lemma is stated about later puts.
