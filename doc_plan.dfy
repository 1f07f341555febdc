/**
 * What the API-doc generator writes, as a pure function of its input: the list
 * of (file, document) writes in the order they are made, with the properties that
 * list has.
 */
module DocPlan {
  import opened Wrappers
  import opened LexOrder
  import opened ApiModels
  import opened AsciiDocModel

  /** `AsciiDoc.normalizeName(parent, segment)`: foreign, so left uninterpreted. */
  type Normalizer = (string, string) -> string

  /** The exceptions the generator throws. */
  datatype DocError =
    | OutputDirRequired            // `checkNotNull` throws: null output directory
    | UnsupportedPathsType(className: string)
    | UnableToOutputDocFile        // an IOException while writing a file

  function FileName(namespace: string): string
  {
    namespace + ".adoc"
  }

  // ---------------------------------------------------------------- resources

  /** The sections of a resource document. */
  datatype Section = ResourceSchema | Create | Read | Update | Delete | Patch | Actions | Queries

  /** The fixed order in which the sections appear. */
  const SectionOrder: seq<Section> := [ResourceSchema, Create, Read, Update, Delete, Patch, Actions, Queries]

  function Heading(s: Section): string
  {
    match s
    case ResourceSchema => "Resource Schema"
    case Create => "Create"
    case Read => "Read"
    case Update => "Update"
    case Delete => "Delete"
    case Patch => "Patch"
    case Actions => "Actions"
    case Queries => "Queries"
  }

  /** The position of a section in `SectionOrder`. */
  function Rank(s: Section): (k: nat)
    ensures k < |SectionOrder| && SectionOrder[k] == s
  {
    match s
    case ResourceSchema => 0
    case Create => 1
    case Read => 2
    case Update => 3
    case Delete => 4
    case Patch => 5
    case Actions => 6
    case Queries => 7
  }

  /** The resource has the part a section documents; arrays must also be non-empty. */
  predicate Present(r: Resource, s: Section)
  {
    match s
    case ResourceSchema => r.resourceSchema.Some?
    case Create => r.create.Some?
    case Read => r.read.Some?
    case Update => r.update.Some?
    case Delete => r.delete.Some?
    case Patch => r.patch.Some?
    case Actions => r.actions.Some? && |r.actions.value| != 0
    case Queries => r.queries.Some? && |r.queries.value| != 0
  }

  /** The sections of `order` the resource has, in that order. */
  function PresentSections(r: Resource, order: seq<Section>): seq<Section>
    decreases |order|
  {
    if order == [] then []
    else (if Present(r, order[0]) then [order[0]] else []) + PresentSections(r, order[1..])
  }

  function SectionTitle(s: Section, level: nat): Element
  {
    Title(level, [Plain(Heading(s))])
  }

  /** The heading of one section if the resource has that part. */
  function SectionPart(r: Resource, s: Section, level: nat): Doc
  {
    if Present(r, s) then [SectionTitle(s, level)] else []
  }

  /** The headings for the sections of `order` the resource has, appended one `if` at a time. */
  function SectionsDoc(r: Resource, order: seq<Section>, level: nat): Doc
    decreases |order|
  {
    if order == [] then [] else SectionPart(r, order[0], level) + SectionsDoc(r, order[1..], level)
  }

  /**
   * The document of a resource: for each section in the fixed order, its heading
   * one level below the parent if the resource has that part.
   */
  function ResourceDoc(r: Resource, parentLevel: nat): Doc
  {
    var l := parentLevel + 1;
    [] + SectionPart(r, ResourceSchema, l) + SectionPart(r, Create, l) + SectionPart(r, Read, l)
      + SectionPart(r, Update, l) + SectionPart(r, Delete, l) + SectionPart(r, Patch, l)
      + SectionPart(r, Actions, l) + SectionPart(r, Queries, l)
  }

  lemma {:induction false} SectionsDocTitles(r: Resource, order: seq<Section>, level: nat)
    ensures var doc := SectionsDoc(r, order, level);
      var secs := PresentSections(r, order);
      |doc| == |secs| && forall i :: 0 <= i < |doc| ==> doc[i] == SectionTitle(secs[i], level)
    decreases |order|
  {
    if order != [] {
      SectionsDocTitles(r, order[1..], level);
    }
  }

  /** `Rank` and `SectionOrder` are inverse to each other. */
  lemma RankAt(k: nat)
    requires k < |SectionOrder|
    ensures Rank(SectionOrder[k]) == k
  {
    if k == 0 {} else if k == 1 {} else if k == 2 {} else if k == 3 {}
    else if k == 4 {} else if k == 5 {} else if k == 6 {} else {}
  }

  /** The present sections from position `k` on: the one at `k` if present, then the rest. */
  lemma PresentSectionsAt(r: Resource, k: nat)
    requires k < |SectionOrder|
    ensures PresentSections(r, SectionOrder[k..])
         == (if Present(r, SectionOrder[k]) then [SectionOrder[k]] else []) + PresentSections(r, SectionOrder[k + 1..])
  {
    assert SectionOrder[k..][1..] == SectionOrder[k + 1..];
  }

  /** The present sections from position `k` on are those the resource has, ranked `k` or more. */
  lemma {:induction false} PresentSectionsFrom(r: Resource, k: nat)
    requires k <= |SectionOrder|
    ensures forall s :: s in PresentSections(r, SectionOrder[k..]) <==> Present(r, s) && k <= Rank(s)
    decreases |SectionOrder| - k
  {
    if k < |SectionOrder| {
      PresentSectionsFrom(r, k + 1);
      PresentSectionsAt(r, k);
      RankAt(k);
      forall s | Present(r, s) && k <= Rank(s)
        ensures s in PresentSections(r, SectionOrder[k..])
      {
        if Rank(s) == k {
          assert s == SectionOrder[k];
        }
      }
    }
  }

  predicate Ranked(order: seq<Section>)
  {
    forall i, j :: 0 <= i < j < |order| ==> Rank(order[i]) < Rank(order[j])
  }

  lemma RankedTail(order: seq<Section>)
    requires Ranked(order) && order != []
    ensures Ranked(order[1..])
    ensures forall s :: s in order[1..] ==> Rank(order[0]) < Rank(s)
  {
    forall i, j | 0 <= i < j < |order[1..]|
      ensures Rank(order[1..][i]) < Rank(order[1..][j])
    {
      assert order[1..][i] == order[i + 1] && order[1..][j] == order[j + 1];
    }
    forall s | s in order[1..]
      ensures Rank(order[0]) < Rank(s)
    {
      var k :| 0 <= k < |order[1..]| && order[1..][k] == s;
      assert order[k + 1] == s;
    }
  }

  lemma RankedCons(x: Section, rest: seq<Section>)
    requires Ranked(rest) && forall s :: s in rest ==> Rank(x) < Rank(s)
    ensures Ranked([x] + rest)
  {
    var secs := [x] + rest;
    forall i, j | 0 <= i < j < |secs|
      ensures Rank(secs[i]) < Rank(secs[j])
    {
      assert secs[j] == rest[j - 1] && rest[j - 1] in rest;
      if 0 < i {
        assert secs[i] == rest[i - 1];
      }
    }
  }

  /** Keeping only the present sections of a ranked order keeps it ranked. */
  lemma {:induction false} PresentSectionsRanked(r: Resource, order: seq<Section>)
    requires Ranked(order)
    ensures Ranked(PresentSections(r, order))
    ensures forall s :: s in PresentSections(r, order) ==> s in order
    decreases |order|
  {
    if order != [] {
      RankedTail(order);
      PresentSectionsRanked(r, order[1..]);
      if Present(r, order[0]) {
        RankedCons(order[0], PresentSections(r, order[1..]));
      }
    }
  }

  /** The fixed section order is ranked. */
  lemma SectionOrderRanked()
    ensures Ranked(SectionOrder)
  {
    forall i | 0 <= i < |SectionOrder|
      ensures Rank(SectionOrder[i]) == i
    {
      RankAt(i);
    }
  }

  /**
   * A resource document holds exactly the headings of the parts the resource has,
   * in the fixed section order.
   */
  lemma ResourceDocHeadings(r: Resource, parentLevel: nat)
    ensures var doc := ResourceDoc(r, parentLevel);
      var secs := PresentSections(r, SectionOrder);
      && |doc| == |secs|
      && (forall i :: 0 <= i < |doc| ==> doc[i] == SectionTitle(secs[i], parentLevel + 1))
      && (forall s :: s in secs <==> Present(r, s))
      && (forall i, j :: 0 <= i < j < |secs| ==> Rank(secs[i]) < Rank(secs[j]))
  {
    ResourceDocInOrder(r, parentLevel);
    SectionsDocTitles(r, SectionOrder, parentLevel + 1);
    PresentSectionsFrom(r, 0);
    SectionOrderRanked();
    PresentSectionsRanked(r, SectionOrder);
    assert SectionOrder[0..] == SectionOrder;
  }

  /**
   * Every heading of a resource document sits at the parent's level plus one, and
   * a resource with no parts gets no headings at all.
   */
  lemma ResourceDocLevels(r: Resource, parentLevel: nat)
    ensures var doc := ResourceDoc(r, parentLevel);
      && (forall e :: e in doc ==> e.Title? && e.level == parentLevel + 1)
      && (doc == [] <==> forall s :: !Present(r, s))
  {
    ResourceDocHeadings(r, parentLevel);
    var secs := PresentSections(r, SectionOrder);
    if secs != [] {
      assert Present(r, secs[0]);
    }
  }

  /** The headings of all sections, written out section by section. */
  lemma SectionsDocUnfolded(r: Resource, l: nat)
    ensures SectionsDoc(r, SectionOrder, l) ==
        SectionPart(r, ResourceSchema, l) + (SectionPart(r, Create, l) + (SectionPart(r, Read, l)
        + (SectionPart(r, Update, l) + (SectionPart(r, Delete, l) + (SectionPart(r, Patch, l)
        + (SectionPart(r, Actions, l) + SectionPart(r, Queries, l)))))))
  {
    var o := SectionOrder;
    assert o[7..] == [Queries];
    assert SectionsDoc(r, o[7..], l) == SectionPart(r, Queries, l) + SectionsDoc(r, [], l);
    assert SectionPart(r, Queries, l) + [] == SectionPart(r, Queries, l);
    assert o[6..] == [Actions] + o[7..];
    assert SectionsDoc(r, o[6..], l) == SectionPart(r, Actions, l) + SectionsDoc(r, o[7..], l);
    assert o[5..] == [Patch] + o[6..];
    assert SectionsDoc(r, o[5..], l) == SectionPart(r, Patch, l) + SectionsDoc(r, o[6..], l);
    assert o[4..] == [Delete] + o[5..];
    assert SectionsDoc(r, o[4..], l) == SectionPart(r, Delete, l) + SectionsDoc(r, o[5..], l);
    assert o[3..] == [Update] + o[4..];
    assert SectionsDoc(r, o[3..], l) == SectionPart(r, Update, l) + SectionsDoc(r, o[4..], l);
    assert o[2..] == [Read] + o[3..];
    assert SectionsDoc(r, o[2..], l) == SectionPart(r, Read, l) + SectionsDoc(r, o[3..], l);
    assert o[1..] == [Create] + o[2..];
    assert SectionsDoc(r, o[1..], l) == SectionPart(r, Create, l) + SectionsDoc(r, o[2..], l);
    assert SectionsDoc(r, o, l) == SectionPart(r, ResourceSchema, l) + SectionsDoc(r, o[1..], l);
  }

  lemma AppendAssoc<T>(a: seq<T>, b: seq<T>, c: seq<T>)
    ensures a + (b + c) == a + b + c
  {
  }

  /** The resource document holds the headings of the sections of `SectionOrder`, in order. */
  lemma ResourceDocInOrder(r: Resource, parentLevel: nat)
    ensures ResourceDoc(r, parentLevel) == SectionsDoc(r, SectionOrder, parentLevel + 1)
  {
    var l := parentLevel + 1;
    SectionsDocUnfolded(r, l);
    var p0, p1, p2, p3 := SectionPart(r, ResourceSchema, l), SectionPart(r, Create, l), SectionPart(r, Read, l), SectionPart(r, Update, l);
    var p4, p5, p6, p7 := SectionPart(r, Delete, l), SectionPart(r, Patch, l), SectionPart(r, Actions, l), SectionPart(r, Queries, l);
    AppendAssoc(p5, p6, p7);
    AppendAssoc(p4, p5 + p6, p7);
    AppendAssoc(p4, p5, p6);
    AppendAssoc(p3, p4 + p5 + p6, p7);
    AppendAssoc(p3, p4 + p5, p6);
    AppendAssoc(p3, p4, p5);
    assert p3 + (p4 + (p5 + (p6 + p7))) == p3 + p4 + p5 + p6 + p7;
    AppendAssoc(p2, p3 + p4 + p5 + p6, p7);
    AppendAssoc(p2, p3 + p4 + p5, p6);
    AppendAssoc(p2, p3 + p4, p5);
    AppendAssoc(p2, p3, p4);
    AppendAssoc(p1, p2 + p3 + p4 + p5 + p6, p7);
    AppendAssoc(p1, p2 + p3 + p4 + p5, p6);
    AppendAssoc(p1, p2 + p3 + p4, p5);
    AppendAssoc(p1, p2 + p3, p4);
    AppendAssoc(p1, p2, p3);
    assert p1 + (p2 + (p3 + (p4 + (p5 + (p6 + p7))))) == p1 + p2 + p3 + p4 + p5 + p6 + p7;
    AppendAssoc(p0, p1 + p2 + p3 + p4 + p5 + p6, p7);
    AppendAssoc(p0, p1 + p2 + p3 + p4 + p5, p6);
    AppendAssoc(p0, p1 + p2 + p3 + p4, p5);
    AppendAssoc(p0, p1 + p2 + p3, p4);
    AppendAssoc(p0, p1 + p2, p3);
    AppendAssoc(p0, p1, p2);
    assert [] + p0 == p0;
  }

  function ResourceFile(norm: Normalizer, parentNamespace: string): string
  {
    FileName(norm(parentNamespace, "resource"))
  }

  /** The write `outputResource(resource, parentLevel, parentNamespace)` makes. */
  function ResourceWrite(norm: Normalizer, r: Resource, parentLevel: nat, parentNamespace: string): Write
  {
    Write(ResourceFile(norm, parentNamespace), ResourceDoc(r, parentLevel))
  }

  // ------------------------------------------------------- paths and versions

  /**
   * The two writes for one leaf node (a flat path at level 2, or a version at
   * level 3): its resource file, then the node's own file, which carries the
   * name in monospace and includes the resource file.
   */
  function LeafWrites(norm: Normalizer, ns: string, name: string, r: Resource, level: nat): seq<Write>
  {
    var leafNs := norm(ns, name);
    [ ResourceWrite(norm, r, level, leafNs),
      Write(FileName(leafNs), [Title(level, [Mono(name)]), Include(ResourceFile(norm, leafNs))]) ]
  }

  /** The pieces `f` gives for each of `names`, concatenated in the order of `names`. */
  function Flatten<T>(names: seq<string>, f: string -> seq<T>): seq<T>
    decreases |names|
  {
    if names == [] then [] else Flatten(names[..|names| - 1], f) + f(names[|names| - 1])
  }

  /** The leaf writes of one name of `m`. */
  function LeafPiece(norm: Normalizer, ns: string, m: map<string, Resource>, level: nat): string -> seq<Write>
  {
    n => if n in m then LeafWrites(norm, ns, n, m[n], level) else []
  }

  /** The leaf writes for each of `names`, in the order of `names`. */
  function LeavesPlan(norm: Normalizer, ns: string, names: seq<string>, m: map<string, Resource>, level: nat)
    : seq<Write>
  {
    Flatten(names, LeafPiece(norm, ns, m, level))
  }

  function IncludePiece(norm: Normalizer, ns: string): string -> Doc
  {
    n => [Include(FileName(norm(ns, n)))]
  }

  /** One include per child of `names`, in order. */
  function ChildIncludes(norm: Normalizer, ns: string, names: seq<string>): Doc
  {
    Flatten(names, IncludePiece(norm, ns))
  }

  function PathsNamespace(norm: Normalizer, parentNamespace: string): string
  {
    norm(parentNamespace, "paths")
  }

  function PathsFile(norm: Normalizer, parentNamespace: string): string
  {
    FileName(PathsNamespace(norm, parentNamespace))
  }

  /**
   * The file of an inner node: its heading, then one include per child, in the
   * order of `names`.
   */
  function NodeWrite(norm: Normalizer, ns: string, heading: Element, names: seq<string>): Write
  {
    Write(FileName(ns), [heading] + ChildIncludes(norm, ns, names))
  }

  /** The writes for an inner node whose children are leaves: each leaf in turn, then the node's file. */
  function TreeWrites(norm: Normalizer, ns: string, heading: Element, names: seq<string>,
                      m: map<string, Resource>, level: nat): seq<Write>
  {
    LeavesPlan(norm, ns, names, m, level) + [NodeWrite(norm, ns, heading, names)]
  }

  const PathsTitle: Element := Title(1, [Plain("Paths")])

  /** The aggregate "Paths" document: its title, then one include per path. */
  function AggregateWrite(norm: Normalizer, allNs: string, names: seq<string>): Write
  {
    NodeWrite(norm, allNs, PathsTitle, names)
  }

  /** The writes `outputPaths` makes for a flat table: paths in ascending order, then the aggregate. */
  ghost function FlatPlan(norm: Normalizer, paths: map<string, Resource>, parentNamespace: string): seq<Write>
  {
    TreeWrites(norm, PathsNamespace(norm, parentNamespace), PathsTitle, SortedKeys(paths.Keys), paths, 2)
  }

  /** The writes for one versioned path: its versions in ascending order, then the path file. */
  ghost function VersionedPathWrites(norm: Normalizer, allNs: string, name: string, vp: VersionedPath)
    : seq<Write>
  {
    TreeWrites(norm, norm(allNs, name), Title(2, [Mono(name)]), SortedKeys(vp.versions.Keys), vp.versions, 3)
  }

  ghost function VersionedPathPiece(norm: Normalizer, allNs: string, vpaths: map<string, VersionedPath>)
    : string -> seq<Write>
  {
    n => if n in vpaths then VersionedPathWrites(norm, allNs, n, vpaths[n]) else []
  }

  /** The writes for each versioned path of `names`, in the order of `names`. */
  ghost function VersionedPathsPlan(norm: Normalizer, allNs: string, names: seq<string>, vpaths: map<string, VersionedPath>)
    : seq<Write>
  {
    Flatten(names, VersionedPathPiece(norm, allNs, vpaths))
  }

  /** The writes `outputVersionedPaths` makes: paths in ascending order, then the aggregate. */
  ghost function VersionedPlan(norm: Normalizer, vpaths: map<string, VersionedPath>, parentNamespace: string)
    : seq<Write>
  {
    var allNs := PathsNamespace(norm, parentNamespace);
    var names := SortedKeys(vpaths.Keys);
    VersionedPathsPlan(norm, allNs, names, vpaths) + [AggregateWrite(norm, allNs, names)]
  }

  // --------------------------------------------------------------------- root

  function IncludeIfPresent(file: Option<string>): Doc
  {
    if file.Some? then [Include(file.value)] else []
  }

  /** The root document: title, id, description, then the summaries that exist, in a fixed order. */
  function RootDoc(api: ApiDescription, pathsFile: Option<string>, definitionsFile: Option<string>,
                   errorsFile: Option<string>): Doc
  {
    [ Title(0, [Plain("API Descriptor")]),
      Title(1, [Plain("ID: "), Mono(api.id)]),
      Newline, Raw(api.description), Newline, Newline ]
      + IncludeIfPresent(pathsFile) + IncludeIfPresent(definitionsFile) + IncludeIfPresent(errorsFile)
  }

  function RootWrite(norm: Normalizer, api: ApiDescription, pathsFile: Option<string>,
                     definitionsFile: Option<string>, errorsFile: Option<string>, parentNamespace: string): Write
  {
    Write(FileName(norm(parentNamespace, "index")), RootDoc(api, pathsFile, definitionsFile, errorsFile))
  }

  /**
   * Everything `execute` writes when no write fails. The definitions and errors
   * summaries are never written, so the root includes at most the paths file.
   * An unsupported path table throws before anything is written.
   */
  ghost function ExecutePlan(norm: Normalizer, api: ApiDescription): seq<Write>
  {
    var ns := api.id;
    match api.paths
    case None => [RootWrite(norm, api, None, None, None, ns)]
    case Some(Flat(p)) =>
      FlatPlan(norm, p, ns) + [RootWrite(norm, api, Some(PathsFile(norm, ns)), None, None, ns)]
    case Some(Versioned(v)) =>
      VersionedPlan(norm, v, ns) + [RootWrite(norm, api, Some(PathsFile(norm, ns)), None, None, ns)]
    case Some(Unsupported(_)) => []
  }

  /** How `execute` ends. */
  ghost function ExecuteOutcome(norm: Normalizer, api: ApiDescription, refuses: string -> bool): Outcome<DocError>
  {
    if api.paths.Some? && api.paths.value.Unsupported? then Fail(UnsupportedPathsType(api.paths.value.className))
    else if AllLand(ExecutePlan(norm, api), refuses) then Pass
    else Fail(UnableToOutputDocFile)
  }
}
