/**
 * The generator itself: an object holding the output directory, whose methods
 * build documents and write them one file at a time. The file system is the
 * `refuses` predicate (the files whose write throws an IOException) and the log
 * `written` of the files written so far; `normalizeName` is a parameter.
 *
 * Every method is proved against the plan of writes in DocPlan: it writes
 * exactly the part of its plan that lands before the first refused write.
 */
module DocGeneration {
  import opened Wrappers
  import opened LexOrder
  import opened ApiModels
  import opened AsciiDocModel
  import opened DocPlan
  import opened DocPlanProperties

  // ------------------------------------------------------- positions in plans

  lemma FlattenStep<T>(names: seq<string>, f: string -> seq<T>, i: nat)
    requires i < |names|
    ensures Flatten(names[..i + 1], f) == Flatten(names[..i], f) + f(names[i])
  {
    assert names[..i + 1][..i] == names[..i];
  }

  lemma ChildIncludesStep(norm: Normalizer, ns: string, names: seq<string>, i: nat)
    requires i < |names|
    ensures ChildIncludes(norm, ns, names[..i + 1])
         == ChildIncludes(norm, ns, names[..i]) + [Include(FileName(norm(ns, names[i])))]
  {
    FlattenStep(names, IncludePiece(norm, ns), i);
  }

  /** The plan of a sequence of names, split around name `i`. */
  lemma FlattenSplit<T>(names: seq<string>, f: string -> seq<T>, i: nat, tail: seq<T>)
    requires i < |names|
    ensures Flatten(names[..i + 1], f) == Flatten(names[..i], f) + f(names[i])
    ensures Flatten(names, f) + tail == Flatten(names[..i], f) + (f(names[i]) + (Flatten(names[i + 1..], f) + tail))
  {
    assert names == names[..i + 1] + names[i + 1..];
    FlattenConcat(names[..i + 1], names[i + 1..], f);
    FlattenStep(names, f, i);
    var front, here, back := Flatten(names[..i], f), f(names[i]), Flatten(names[i + 1..], f);
    AppendAssoc(front + here, back, tail);
    AppendAssoc(front, here, back + tail);
  }

  /**
   * A piece of a plan made after the writes before it all landed: either the
   * whole piece lands too, or the run stops with the log at what the plan lands.
   */
  lemma PieceLanded(log: seq<Write>, before: seq<Write>, after: seq<Write>, prefix: seq<Write>, piece: seq<Write>,
                    rest: seq<Write>, refuses: string -> bool)
    requires before == log + prefix && AllLand(prefix, refuses)
    requires after == before + Landed(piece, refuses)
    ensures AllLand(piece, refuses) ==> after == log + (prefix + piece) && AllLand(prefix + piece, refuses)
    ensures !AllLand(piece, refuses) ==>
      after == log + Landed(prefix + (piece + rest), refuses) && !AllLand(prefix + (piece + rest), refuses)
  {
    LandedAll(piece, refuses);
    if AllLand(piece, refuses) {
      LandedConcat(prefix, piece, refuses);
      LandedAll(prefix + piece, refuses);
      AppendAssoc(log, prefix, piece);
    } else {
      LandedConcat(prefix, piece + rest, refuses);
      LandedConcat(piece, rest, refuses);
      LandedAll(prefix + (piece + rest), refuses);
      AppendAssoc(log, prefix, Landed(piece, refuses));
    }
  }

  /** The last write of a plan, made after all the others landed. */
  lemma PlanLast(log: seq<Write>, before: seq<Write>, after: seq<Write>, done: seq<Write>, w: Write,
                 refuses: string -> bool)
    requires before == log + done && AllLand(done, refuses)
    requires after == before + if refuses(w.file) then [] else [w]
    ensures after == log + Landed(done + [w], refuses)
    ensures !refuses(w.file) <==> AllLand(done + [w], refuses)
  {
    LandedConcat(done, [w], refuses);
    assert [w][1..] == [];
    AppendAssoc(log, done, Landed([w], refuses));
    LandedAll(done + [w], refuses);
  }

  /** A plan whose first part does not all land lands no more than that part. */
  lemma BodyStopped(body: seq<Write>, last: Write, refuses: string -> bool)
    requires !AllLand(body, refuses)
    ensures Landed(body + [last], refuses) == Landed(body, refuses)
    ensures !AllLand(body + [last], refuses)
  {
    LandedConcat(body, [last], refuses);
  }

  /** Unless the path table is unsupported, `execute` passes exactly when its whole plan lands. */
  lemma ExecuteEnds(norm: Normalizer, api: ApiDescription, plan: seq<Write>, refuses: string -> bool)
    requires !(api.paths.Some? && api.paths.value.Unsupported?)
    requires plan == ExecutePlan(norm, api)
    ensures ExecuteOutcome(norm, api, refuses) == if AllLand(plan, refuses) then Pass else Fail(UnableToOutputDocFile)
  {
  }

  /** The two writes of leaf `i` of a tree: its resource file, then its own file. */
  lemma TreeLeafAt(norm: Normalizer, ns: string, heading: Element, names: seq<string>,
                   m: map<string, Resource>, level: nat, i: nat)
    requires forall n :: n in names ==> n in m
    requires i < |names|
    ensures var w := TreeWrites(norm, ns, heading, names, m, level);
      var leafNs := norm(ns, names[i]);
      && 2 * i + 1 < |w|
      && w[2 * i] == ResourceWrite(norm, m[names[i]], level, leafNs)
      && w[2 * i + 1] == Write(FileName(leafNs), [Title(level, [Mono(names[i])]), Include(ResourceFile(norm, leafNs))])
  {
    TreeWritesShape(norm, ns, heading, names, m, level);
  }

  /** The last write of a tree is its inner node's file. */
  lemma TreeNodeLast(norm: Normalizer, ns: string, heading: Element, names: seq<string>,
                     m: map<string, Resource>, level: nat, pos: nat)
    requires forall n :: n in names ==> n in m
    requires pos == 2 * |names|
    ensures var w := TreeWrites(norm, ns, heading, names, m, level);
      pos < |w| && w[pos] == NodeWrite(norm, ns, heading, names)
  {
    TreeWritesShape(norm, ns, heading, names, m, level);
  }

  /** The plan's piece for a path of the table is that path's writes. */
  lemma VersionedPieceOf(norm: Normalizer, allNs: string, vpaths: map<string, VersionedPath>, n: string)
    requires n in vpaths
    ensures VersionedPathPiece(norm, allNs, vpaths)(n) == VersionedPathWrites(norm, allNs, n, vpaths[n])
  {
  }

  /** The write at `pos` was refused: the plan stops there. */
  lemma PlanStopped(log: seq<Write>, after: seq<Write>, plan: seq<Write>, pos: nat, refuses: string -> bool)
    requires pos < |plan| && AllLand(plan[..pos], refuses) && refuses(plan[pos].file)
    requires after == log + plan[..pos]
    ensures after == log + Landed(plan, refuses) && !AllLand(plan, refuses)
  {
    LandedStopsAt(plan, pos, refuses);
  }

  /** The write at `pos` landed: the log holds one more write of the plan. */
  lemma PlanAdvanced(log: seq<Write>, before: seq<Write>, after: seq<Write>, plan: seq<Write>, pos: nat,
                     next: nat, refuses: string -> bool)
    requires pos < |plan| && next == pos + 1
    requires AllLand(plan[..pos], refuses) && !refuses(plan[pos].file)
    requires before == log + plan[..pos] && after == before + [plan[pos]]
    ensures after == log + plan[..next] && AllLand(plan[..next], refuses)
  {
    assert plan[..next] == plan[..pos] + [plan[pos]];
  }

  /**
   * One write of the plan was attempted at position `pos`: if the file system
   * refused it the plan stops there, otherwise the log holds one more write.
   */
  lemma PlanStep(log: seq<Write>, before: seq<Write>, after: seq<Write>, plan: seq<Write>, pos: nat,
                 next: nat, refuses: string -> bool)
    requires pos < |plan| && next == pos + 1
    requires AllLand(plan[..pos], refuses) && before == log + plan[..pos]
    requires after == before + if refuses(plan[pos].file) then [] else [plan[pos]]
    ensures refuses(plan[pos].file) ==> after == log + Landed(plan, refuses) && !AllLand(plan, refuses)
    ensures !refuses(plan[pos].file) ==> after == log + plan[..next] && AllLand(plan[..next], refuses)
  {
    if refuses(plan[pos].file) {
      assert after == before;
      PlanStopped(log, after, plan, pos, refuses);
    } else {
      PlanAdvanced(log, before, after, plan, pos, next, refuses);
    }
  }

  /** What lands of two writes made in turn: a refused write stops the run. */
  function LandedPair(w0: Write, w1: Write, refuses: string -> bool): (r: seq<Write>)
    ensures r == Landed([w0, w1], refuses)
  {
    assert [w0, w1][1..] == [w1];
    if refuses(w0.file) then [] else if refuses(w1.file) then [w0] else [w0, w1]
  }

  /**
   * Two writes of the plan made at `pos`: either both land, moving the log on by
   * two, or the run stops with the log at what the plan lands.
   */
  lemma PlanPair(log: seq<Write>, before: seq<Write>, after: seq<Write>, plan: seq<Write>, pos: nat,
                 next: nat, w0: Write, w1: Write, refuses: string -> bool)
    requires next == pos + 2 && next <= |plan| && plan[pos] == w0 && plan[pos + 1] == w1
    requires AllLand(plan[..pos], refuses) && before == log + plan[..pos]
    requires after == before + LandedPair(w0, w1, refuses)
    ensures !refuses(w0.file) && !refuses(w1.file) ==> after == log + plan[..next] && AllLand(plan[..next], refuses)
    ensures refuses(w0.file) || refuses(w1.file) ==> after == log + Landed(plan, refuses) && !AllLand(plan, refuses)
  {
    var mid := before + if refuses(w0.file) then [] else [w0];
    PlanStep(log, before, mid, plan, pos, pos + 1, refuses);
    if !refuses(w0.file) {
      assert after == mid + if refuses(w1.file) then [] else [w1];
      PlanStep(log, mid, after, plan, pos + 1, next, refuses);
    }
  }

  /** One more include in a node's document. */
  lemma OneMoreInclude(norm: Normalizer, ns: string, heading: Element, names: seq<string>, i: nat)
    requires i < |names|
    ensures [heading] + ChildIncludes(norm, ns, names[..i]) + [Include(FileName(norm(ns, names[i])))]
         == [heading] + ChildIncludes(norm, ns, names[..i + 1])
  {
    ChildIncludesStep(norm, ns, names, i);
  }

  /** A tree's writes: two per leaf, then the node's file. */
  lemma TreeLength(norm: Normalizer, ns: string, heading: Element, names: seq<string>,
                   m: map<string, Resource>, level: nat)
    requires names == SortedKeys(m.Keys)
    ensures |TreeWrites(norm, ns, heading, names, m, level)| == 2 * |names| + 1
  {
    TreeWritesShape(norm, ns, heading, names, m, level);
  }

  /** Leaf `i` of a tree, written at `2 * i` of the tree's writes: both its writes land, or the run stops. */
  lemma TreeStep(norm: Normalizer, ns: string, heading: Element, names: seq<string>, m: map<string, Resource>,
                 level: nat, i: nat, log: seq<Write>, before: seq<Write>, after: seq<Write>, refuses: string -> bool)
    requires names == SortedKeys(m.Keys) && i < |names|
    requires |TreeWrites(norm, ns, heading, names, m, level)| == 2 * |names| + 1
    requires before == log + TreeWrites(norm, ns, heading, names, m, level)[..2 * i]
    requires AllLand(TreeWrites(norm, ns, heading, names, m, level)[..2 * i], refuses)
    requires var w := LeafWrites(norm, ns, names[i], m[names[i]], level);
      after == before + LandedPair(w[0], w[1], refuses)
    ensures var plan := TreeWrites(norm, ns, heading, names, m, level);
      var w := LeafWrites(norm, ns, names[i], m[names[i]], level);
      && (!refuses(w[0].file) && !refuses(w[1].file) ==>
            after == log + plan[..2 * (i + 1)] && AllLand(plan[..2 * (i + 1)], refuses))
      && (refuses(w[0].file) || refuses(w[1].file) ==> after == log + Landed(plan, refuses) && !AllLand(plan, refuses))
  {
    var plan := TreeWrites(norm, ns, heading, names, m, level);
    var w := LeafWrites(norm, ns, names[i], m[names[i]], level);
    TreeLeafAt(norm, ns, heading, names, m, level, i);
    PlanPair(log, before, after, plan, 2 * i, 2 * (i + 1), w[0], w[1], refuses);
  }

  /** The node's file of a tree, written after all its leaves. */
  lemma TreeLast(norm: Normalizer, ns: string, heading: Element, names: seq<string>, m: map<string, Resource>,
                 level: nat, doc: Doc, filename: string, log: seq<Write>, before: seq<Write>, after: seq<Write>,
                 refuses: string -> bool)
    requires names == SortedKeys(m.Keys)
    requires |TreeWrites(norm, ns, heading, names, m, level)| == 2 * |names| + 1
    requires before == log + TreeWrites(norm, ns, heading, names, m, level)[..2 * |names|]
    requires AllLand(TreeWrites(norm, ns, heading, names, m, level)[..2 * |names|], refuses)
    requires doc == [heading] + ChildIncludes(norm, ns, names)
    requires filename == FileName(ns)
    requires after == before + if refuses(filename) then [] else [Write(filename, doc)]
    ensures after == log + Landed(TreeWrites(norm, ns, heading, names, m, level), refuses)
    ensures !refuses(filename) <==> AllLand(TreeWrites(norm, ns, heading, names, m, level), refuses)
  {
    var plan := TreeWrites(norm, ns, heading, names, m, level);
    var pos := 2 * |names|;
    TreeNodeLast(norm, ns, heading, names, m, level, pos);
    assert plan == plan[..pos] + [plan[pos]];
    PlanLast(log, before, after, plan[..pos], plan[pos], refuses);
  }

  /**
   * Path `i` of the versioned plan, after the paths before it: either all its
   * writes land and the log holds the plan of the paths up to it, or the run stops.
   */
  lemma VersionedPathsStep(norm: Normalizer, vpaths: map<string, VersionedPath>, parentNamespace: string,
                           names: seq<string>, i: nat, log: seq<Write>, before: seq<Write>, after: seq<Write>,
                           refuses: string -> bool)
    requires names == SortedKeys(vpaths.Keys) && i < |names|
    requires before == log + VersionedPathsPlan(norm, PathsNamespace(norm, parentNamespace), names[..i], vpaths)
    requires AllLand(VersionedPathsPlan(norm, PathsNamespace(norm, parentNamespace), names[..i], vpaths), refuses)
    requires after == before + Landed(VersionedPathWrites(norm, PathsNamespace(norm, parentNamespace), names[i], vpaths[names[i]]), refuses)
    ensures var piece := VersionedPathWrites(norm, PathsNamespace(norm, parentNamespace), names[i], vpaths[names[i]]);
      var done := VersionedPathsPlan(norm, PathsNamespace(norm, parentNamespace), names[..i + 1], vpaths);
      AllLand(piece, refuses) ==> after == log + done && AllLand(done, refuses)
    ensures var piece := VersionedPathWrites(norm, PathsNamespace(norm, parentNamespace), names[i], vpaths[names[i]]);
      var plan := VersionedPlan(norm, vpaths, parentNamespace);
      !AllLand(piece, refuses) ==> after == log + Landed(plan, refuses) && !AllLand(plan, refuses)
  {
    var allNs := PathsNamespace(norm, parentNamespace);
    var f := VersionedPathPiece(norm, allNs, vpaths);
    VersionedPieceOf(norm, allNs, vpaths, names[i]);
    FlattenSplit(names, f, i, [AggregateWrite(norm, allNs, names)]);
    PieceLanded(log, before, after, Flatten(names[..i], f), f(names[i]),
                Flatten(names[i + 1..], f) + [AggregateWrite(norm, allNs, names)], refuses);
  }

  /** The aggregate of the versioned plan, written after every path. */
  lemma VersionedLastStep(norm: Normalizer, vpaths: map<string, VersionedPath>, parentNamespace: string,
                          names: seq<string>, doc: Doc, filename: string,
                          log: seq<Write>, before: seq<Write>, after: seq<Write>, refuses: string -> bool)
    requires names == SortedKeys(vpaths.Keys)
    requires before == log + VersionedPathsPlan(norm, PathsNamespace(norm, parentNamespace), names, vpaths)
    requires AllLand(VersionedPathsPlan(norm, PathsNamespace(norm, parentNamespace), names, vpaths), refuses)
    requires doc == [PathsTitle] + ChildIncludes(norm, PathsNamespace(norm, parentNamespace), names)
    requires filename == PathsFile(norm, parentNamespace)
    requires after == before + if refuses(filename) then [] else [Write(filename, doc)]
    ensures after == log + Landed(VersionedPlan(norm, vpaths, parentNamespace), refuses)
    ensures !refuses(filename) <==> AllLand(VersionedPlan(norm, vpaths, parentNamespace), refuses)
  {
    var allNs := PathsNamespace(norm, parentNamespace);
    var done := VersionedPathsPlan(norm, allNs, names, vpaths);
    PlanLast(log, before, after, done, AggregateWrite(norm, allNs, names), refuses);
  }

  // ---------------------------------------------------------------- generator

  class ApiDocGenerator {
    /** The root output directory; file names below are relative to it. */
    const outputDirPath: string
    /** `AsciiDoc.normalizeName`, whose body is not part of this model. */
    const normalizeName: Normalizer
    /** The files whose write fails with an IOException. */
    const refuses: string -> bool
    /** The files written so far, in order. */
    var written: seq<Write>

    constructor(outputDirPath: string, normalizeName: Normalizer, refuses: string -> bool)
      ensures this.outputDirPath == outputDirPath && this.normalizeName == normalizeName
      ensures this.refuses == refuses && written == []
    {
      this.outputDirPath := outputDirPath;
      this.normalizeName := normalizeName;
      this.refuses := refuses;
      written := [];
    }

    /** `new ApiDocGenerator(outputDirPath)`: a null directory is refused. */
    static method Create(outputDirPath: Option<string>, normalizeName: Normalizer, refuses: string -> bool)
      returns (r: Result<ApiDocGenerator, DocError>)
      ensures r.Failure? <==> outputDirPath.None?
      ensures r.Failure? ==> r.error == OutputDirRequired
      ensures r.Success? ==>
        && fresh(r.value) && r.value.outputDirPath == outputDirPath.value
        && r.value.normalizeName == normalizeName && r.value.refuses == refuses && r.value.written == []
    {
      if outputDirPath.None? {
        return Failure(OutputDirRequired);
      }
      var g := new ApiDocGenerator(outputDirPath.value, normalizeName, refuses);
      return Success(g);
    }

    /** `AsciiDoc.toFile`: the document lands under `filename` unless the file system refuses it. */
    method ToFile(doc: Doc, filename: string) returns (ok: bool)
      modifies this
      ensures ok == !refuses(filename)
      ensures written == old(written) + if ok then [Write(filename, doc)] else []
    {
      ok := !refuses(filename);
      if ok {
        written := written + [Write(filename, doc)];
      }
    }

    /** `outputResource`: one heading per part the resource has, then the file. */
    method OutputResource(resource: Resource, parentSectionLevel: nat, parentNamespace: string)
      returns (r: Result<string, DocError>)
      modifies this
      ensures var w := ResourceWrite(normalizeName, resource, parentSectionLevel, parentNamespace);
        && (r.Success? <==> !refuses(w.file))
        && written == old(written) + (if r.Success? then [w] else [])
        && (r.Success? ==> r.value == w.file)
        && (r.Failure? ==> r.error == UnableToOutputDocFile)
    {
      var namespace := normalizeName(parentNamespace, "resource");
      var resourceDoc: Doc := [];
      var sectionLevel: nat := parentSectionLevel + 1;
      // Each part adds its heading only when the resource has it (`Present`).
      resourceDoc := resourceDoc + SectionPart(resource, ResourceSchema, sectionLevel);
      resourceDoc := resourceDoc + SectionPart(resource, Section.Create, sectionLevel);
      resourceDoc := resourceDoc + SectionPart(resource, Read, sectionLevel);
      resourceDoc := resourceDoc + SectionPart(resource, Update, sectionLevel);
      resourceDoc := resourceDoc + SectionPart(resource, Delete, sectionLevel);
      resourceDoc := resourceDoc + SectionPart(resource, Patch, sectionLevel);
      resourceDoc := resourceDoc + SectionPart(resource, Actions, sectionLevel);
      resourceDoc := resourceDoc + SectionPart(resource, Queries, sectionLevel);
      var filename := namespace + ".adoc";
      assert filename == ResourceFile(normalizeName, parentNamespace);
      var ok := ToFile(resourceDoc, filename);
      r := if ok then Success(filename) else Failure(UnableToOutputDocFile);
    }

    /**
     * The body shared by the loops of `outputPaths` and `outputVersionedPaths`:
     * the resource file of one child, then the child's own file, titled with its
     * name at `level` and including the resource file.
     */
    method OutputLeaf(parentNamespace: string, name: string, resource: Resource, level: nat)
      returns (r: Result<string, DocError>)
      modifies this
      ensures var w := LeafWrites(normalizeName, parentNamespace, name, resource, level);
        && written == old(written) + LandedPair(w[0], w[1], refuses)
        && (r.Success? <==> !refuses(w[0].file) && !refuses(w[1].file))
        && (r.Success? ==> r.value == w[1].file)
        && (r.Failure? ==> r.error == UnableToOutputDocFile)
    {
      ghost var plan := LeafWrites(normalizeName, parentNamespace, name, resource, level);
      var leafNamespace := normalizeName(parentNamespace, name);
      var leafDoc: Doc := [Title(level, [Mono(name)])];
      var resourceImport := OutputResource(resource, level, leafNamespace);
      if resourceImport.Failure? {
        return Failure(UnableToOutputDocFile);
      }
      leafDoc := leafDoc + [Include(resourceImport.value)];
      var leafFilename := leafNamespace + ".adoc";
      assert Write(leafFilename, leafDoc) == plan[1];
      var ok := ToFile(leafDoc, leafFilename);
      if !ok {
        return Failure(UnableToOutputDocFile);
      }
      assert written == old(written) + [plan[0], plan[1]];
      return Success(leafFilename);
    }

    /**
     * `outputPaths`: for each path in ascending order, its resource file and its
     * path file, then the aggregate that includes every path file.
     */
    method OutputPaths(paths: map<string, Resource>, parentNamespace: string) returns (r: Result<string, DocError>)
      modifies this
      ensures written == old(written) + Landed(FlatPlan(normalizeName, paths, parentNamespace), refuses)
      ensures r.Success? <==> AllLand(FlatPlan(normalizeName, paths, parentNamespace), refuses)
      ensures r.Success? ==> r.value == PathsFile(normalizeName, parentNamespace)
      ensures r.Failure? ==> r.error == UnableToOutputDocFile
    {
      var allPathsDocNamespace := normalizeName(parentNamespace, "paths");
      var allPathsDoc: Doc := [PathsTitle];
      var pathNames := SortNames(paths.Keys);
      ghost var plan := TreeWrites(normalizeName, allPathsDocNamespace, PathsTitle, pathNames, paths, 2);
      TreeLength(normalizeName, allPathsDocNamespace, PathsTitle, pathNames, paths, 2);
      var i := 0;
      while i < |pathNames|
        invariant i <= |pathNames|
        invariant written == old(written) + plan[..2 * i] && AllLand(plan[..2 * i], refuses)
        invariant allPathsDoc == [PathsTitle] + ChildIncludes(normalizeName, allPathsDocNamespace, pathNames[..i])
      {
        var pathName := pathNames[i];
        ghost var before := written;
        var pathDoc := OutputLeaf(allPathsDocNamespace, pathName, paths[pathName], 2);
        TreeStep(normalizeName, allPathsDocNamespace, PathsTitle, pathNames, paths, 2, i,
                 old(written), before, written, refuses);
        if pathDoc.Failure? {
          return Failure(UnableToOutputDocFile);
        }
        allPathsDoc := allPathsDoc + [Include(pathDoc.value)];
        OneMoreInclude(normalizeName, allPathsDocNamespace, PathsTitle, pathNames, i);
        i := i + 1;
      }
      assert pathNames[..i] == pathNames;
      var filename := allPathsDocNamespace + ".adoc";
      ghost var before := written;
      var ok := ToFile(allPathsDoc, filename);
      TreeLast(normalizeName, allPathsDocNamespace, PathsTitle, pathNames, paths, 2, allPathsDoc, filename,
               old(written), before, written, refuses);
      if !ok {
        return Failure(UnableToOutputDocFile);
      }
      return Success(filename);
    }

    /**
     * The body of `outputVersionedPaths` for one path: each of its versions in
     * ascending order (resource file, then version file), then the path file,
     * which includes every version file.
     */
    method OutputVersionedPath(allPathsDocNamespace: string, pathName: string, versionedPath: VersionedPath)
      returns (r: Result<string, DocError>)
      modifies this
      ensures written == old(written) + Landed(VersionedPathWrites(normalizeName, allPathsDocNamespace, pathName, versionedPath), refuses)
      ensures r.Success? <==> AllLand(VersionedPathWrites(normalizeName, allPathsDocNamespace, pathName, versionedPath), refuses)
      ensures r.Success? ==> r.value == FileName(normalizeName(allPathsDocNamespace, pathName))
      ensures r.Failure? ==> r.error == UnableToOutputDocFile
    {
      var pathDocNamespace := normalizeName(allPathsDocNamespace, pathName);
      var pathDoc: Doc := [Title(2, [Mono(pathName)])];
      var versions := SortNames(versionedPath.versions.Keys);
      ghost var plan := TreeWrites(normalizeName, pathDocNamespace, Title(2, [Mono(pathName)]), versions, versionedPath.versions, 3);
      TreeLength(normalizeName, pathDocNamespace, Title(2, [Mono(pathName)]), versions, versionedPath.versions, 3);
      var j := 0;
      while j < |versions|
        invariant j <= |versions|
        invariant written == old(written) + plan[..2 * j] && AllLand(plan[..2 * j], refuses)
        invariant pathDoc == [Title(2, [Mono(pathName)])] + ChildIncludes(normalizeName, pathDocNamespace, versions[..j])
      {
        var versionName := versions[j];
        ghost var before := written;
        var versionDoc := OutputLeaf(pathDocNamespace, versionName, versionedPath.versions[versionName], 3);
        TreeStep(normalizeName, pathDocNamespace, Title(2, [Mono(pathName)]), versions, versionedPath.versions, 3, j,
                 old(written), before, written, refuses);
        if versionDoc.Failure? {
          return Failure(UnableToOutputDocFile);
        }
        pathDoc := pathDoc + [Include(versionDoc.value)];
        OneMoreInclude(normalizeName, pathDocNamespace, Title(2, [Mono(pathName)]), versions, j);
        j := j + 1;
      }
      assert versions[..j] == versions;
      var pathDocFilename := pathDocNamespace + ".adoc";
      ghost var before := written;
      var ok := ToFile(pathDoc, pathDocFilename);
      TreeLast(normalizeName, pathDocNamespace, Title(2, [Mono(pathName)]), versions, versionedPath.versions, 3,
               pathDoc, pathDocFilename, old(written), before, written, refuses);
      if !ok {
        return Failure(UnableToOutputDocFile);
      }
      return Success(pathDocFilename);
    }

    /**
     * `outputVersionedPaths`: each path in ascending order (see
     * `OutputVersionedPath`), then the aggregate that includes every path file.
     */
    method OutputVersionedPaths(paths: map<string, VersionedPath>, parentNamespace: string)
      returns (r: Result<string, DocError>)
      modifies this
      ensures written == old(written) + Landed(VersionedPlan(normalizeName, paths, parentNamespace), refuses)
      ensures r.Success? <==> AllLand(VersionedPlan(normalizeName, paths, parentNamespace), refuses)
      ensures r.Success? ==> r.value == PathsFile(normalizeName, parentNamespace)
      ensures r.Failure? ==> r.error == UnableToOutputDocFile
    {
      var allPathsDocNamespace := normalizeName(parentNamespace, "paths");
      var allPathsDoc: Doc := [PathsTitle];
      var pathNames := SortNames(paths.Keys);
      assert pathNames[..0] == [];
      var i := 0;
      while i < |pathNames|
        invariant i <= |pathNames|
        invariant written == old(written) + VersionedPathsPlan(normalizeName, allPathsDocNamespace, pathNames[..i], paths)
        invariant AllLand(VersionedPathsPlan(normalizeName, allPathsDocNamespace, pathNames[..i], paths), refuses)
        invariant allPathsDoc == [PathsTitle] + ChildIncludes(normalizeName, allPathsDocNamespace, pathNames[..i])
      {
        var pathName := pathNames[i];
        ghost var before := written;
        var pathDoc := OutputVersionedPath(allPathsDocNamespace, pathName, paths[pathName]);
        VersionedPathsStep(normalizeName, paths, parentNamespace, pathNames, i, old(written), before, written, refuses);
        if pathDoc.Failure? {
          return Failure(UnableToOutputDocFile);
        }
        allPathsDoc := allPathsDoc + [Include(pathDoc.value)];
        OneMoreInclude(normalizeName, allPathsDocNamespace, PathsTitle, pathNames, i);
        i := i + 1;
      }
      assert pathNames[..i] == pathNames;
      var filename := allPathsDocNamespace + ".adoc";
      ghost var before := written;
      var ok := ToFile(allPathsDoc, filename);
      VersionedLastStep(normalizeName, paths, parentNamespace, pathNames, allPathsDoc, filename,
                        old(written), before, written, refuses);
      if !ok {
        return Failure(UnableToOutputDocFile);
      }
      return Success(filename);
    }

    /** `outputDefinitions`: not yet written by the generator, so never a file. */
    method OutputDefinitions(definitions: Option<SchemaCatalog.Definitions>, parentNamespace: string)
      returns (r: Option<string>)
      ensures r == None
    {
      if definitions.None? {
        return None;
      }
      return None;
    }

    /** `outputErrors`: not yet written by the generator, so never a file. */
    method OutputErrors(errors: Option<Errors>, parentNamespace: string) returns (r: Option<string>)
      ensures r == None
    {
      if errors.None? {
        return None;
      }
      return None;
    }

    /** `outputRoot`: title, id and description, then an include per summary that exists. */
    method OutputRoot(api: ApiDescription, pathsFilename: Option<string>, definitionsFilename: Option<string>,
                      errorsFilename: Option<string>, parentNamespace: string) returns (r: Result<string, DocError>)
      modifies this
      ensures var w := RootWrite(normalizeName, api, pathsFilename, definitionsFilename, errorsFilename, parentNamespace);
        && (r.Success? <==> !refuses(w.file))
        && written == old(written) + (if r.Success? then [w] else [])
        && (r.Success? ==> r.value == w.file)
        && (r.Failure? ==> r.error == UnableToOutputDocFile)
    {
      var namespace := normalizeName(parentNamespace, "index");
      var pathsDoc: Doc := [Title(0, [Plain("API Descriptor")]), Title(1, [Plain("ID: "), Mono(api.id)]),
                            Newline, Raw(api.description), Newline, Newline];
      ghost var header := pathsDoc;
      if pathsFilename.Some? {
        pathsDoc := pathsDoc + [Include(pathsFilename.value)];
      }
      assert pathsDoc == header + IncludeIfPresent(pathsFilename);
      if definitionsFilename.Some? {
        pathsDoc := pathsDoc + [Include(definitionsFilename.value)];
      }
      assert pathsDoc == header + IncludeIfPresent(pathsFilename) + IncludeIfPresent(definitionsFilename);
      if errorsFilename.Some? {
        pathsDoc := pathsDoc + [Include(errorsFilename.value)];
      }
      assert pathsDoc == RootDoc(api, pathsFilename, definitionsFilename, errorsFilename);
      var filename := namespace + ".adoc";
      var ok := ToFile(pathsDoc, filename);
      r := if ok then Success(filename) else Failure(UnableToOutputDocFile);
    }

    /**
     * `execute`: the path table (flat or versioned), the summaries, then the
     * root. Writes the part of its plan that lands and ends as the plan says.
     */
    method Execute(api: ApiDescription) returns (o: Outcome<DocError>)
      modifies this
      ensures written == old(written) + Landed(ExecutePlan(normalizeName, api), refuses)
      ensures o == ExecuteOutcome(normalizeName, api, refuses)
    {
      var namespace := api.id;
      var pathsFilename: Option<string> := None;
      ghost var body: seq<Write> := [];
      if api.paths.Some? {
        match api.paths.value
        case Flat(p) =>
          var res := OutputPaths(p, namespace);
          body := FlatPlan(normalizeName, p, namespace);
          if res.Failure? {
            BodyStopped(body, RootWrite(normalizeName, api, Some(PathsFile(normalizeName, namespace)), None, None, namespace), refuses);
            ExecuteEnds(normalizeName, api, body + [RootWrite(normalizeName, api, Some(PathsFile(normalizeName, namespace)), None, None, namespace)], refuses);
            return Fail(res.error);
          }
          pathsFilename := Some(res.value);
        case Versioned(v) =>
          var res := OutputVersionedPaths(v, namespace);
          body := VersionedPlan(normalizeName, v, namespace);
          if res.Failure? {
            BodyStopped(body, RootWrite(normalizeName, api, Some(PathsFile(normalizeName, namespace)), None, None, namespace), refuses);
            ExecuteEnds(normalizeName, api, body + [RootWrite(normalizeName, api, Some(PathsFile(normalizeName, namespace)), None, None, namespace)], refuses);
            return Fail(res.error);
          }
          pathsFilename := Some(res.value);
        case Unsupported(className) =>
          return Fail(UnsupportedPathsType(className));
      }
      ghost var rootWrite := RootWrite(normalizeName, api, pathsFilename, None, None, namespace);
      assert ExecutePlan(normalizeName, api) == body + [rootWrite];
      LandedAll(body, refuses);
      var definitionsFilename := OutputDefinitions(api.definitions, namespace);
      var errorsFilename := OutputErrors(api.errors, namespace);
      ghost var before := written;
      var root := OutputRoot(api, pathsFilename, definitionsFilename, errorsFilename, namespace);
      PlanLast(old(written), before, written, body, rootWrite, refuses);
      ExecuteEnds(normalizeName, api, body + [rootWrite], refuses);
      if root.Failure? {
        return Fail(root.error);
      }
      return Pass;
    }
  }
}
