/**
 * Properties of the generator's plan of writes: which files are written, in which
 * order, and that every include names a file written before it.
 */
module DocPlanProperties {
  import opened Wrappers
  import opened LexOrder
  import opened ApiModels
  import opened AsciiDocModel
  import opened DocPlan

  // ------------------------------------------------------------ composition

  lemma {:induction false} FlattenConcat<T>(a: seq<string>, b: seq<string>, f: string -> seq<T>)
    ensures Flatten(a + b, f) == Flatten(a, f) + Flatten(b, f)
    decreases |b|
  {
    if b == [] {
      assert a + b == a;
    } else {
      var b' := b[..|b| - 1];
      assert (a + b)[..|a + b| - 1] == a + b';
      FlattenConcat(a, b', f);
    }
  }

  /** A single name contributes exactly its own pieces. */
  lemma FlattenOne<T>(names: seq<string>, f: string -> seq<T>)
    requires |names| == 1
    ensures Flatten(names, f) == f(names[0])
  {
    assert names[..0] == [];
    assert Flatten(names, f) == [] + f(names[0]);
  }

  /** When `f` gives two items per name, the items of name `k` sit at `2 * k` and `2 * k + 1`. */
  lemma {:induction false} FlattenPairs<T>(names: seq<string>, f: string -> seq<T>)
    requires forall k :: 0 <= k < |names| ==> |f(names[k])| == 2
    ensures |Flatten(names, f)| == 2 * |names|
    ensures forall k :: 0 <= k < |names| ==>
      Flatten(names, f)[2 * k] == f(names[k])[0] && Flatten(names, f)[2 * k + 1] == f(names[k])[1]
    decreases |names|
  {
    if names != [] {
      var init := names[..|names| - 1];
      assert forall k :: 0 <= k < |init| ==> init[k] == names[k];
      FlattenPairs(init, f);
    }
  }

  /** When `f` gives one item per name, the item of name `k` sits at `k`. */
  lemma {:induction false} FlattenSingles<T>(names: seq<string>, f: string -> seq<T>)
    requires forall k :: 0 <= k < |names| ==> |f(names[k])| == 1
    ensures |Flatten(names, f)| == |names|
    ensures forall k :: 0 <= k < |names| ==> Flatten(names, f)[k] == f(names[k])[0]
    decreases |names|
  {
    if names != [] {
      var init := names[..|names| - 1];
      assert forall k :: 0 <= k < |init| ==> init[k] == names[k];
      FlattenSingles(init, f);
    }
  }

  // ------------------------------------------------------------------ shapes

  /**
   * For each name in turn, the leaf plan writes the resource file and then the
   * node file that includes it.
   */
  lemma LeavesPlanShape(norm: Normalizer, ns: string, names: seq<string>,
                         m: map<string, Resource>, level: nat)
    requires forall n :: n in names ==> n in m
    ensures var plan := LeavesPlan(norm, ns, names, m, level);
      && |plan| == 2 * |names|
      && forall k :: 0 <= k < |names| ==>
           && plan[2 * k] == ResourceWrite(norm, m[names[k]], level, norm(ns, names[k]))
           && plan[2 * k + 1] == Write(FileName(norm(ns, names[k])),
                                       [Title(level, [Mono(names[k])]), Include(ResourceFile(norm, norm(ns, names[k])))])
  {
    var f := LeafPiece(norm, ns, m, level);
    FlattenPairs(names, f);
    forall k | 0 <= k < |names|
      ensures f(names[k]) == LeafWrites(norm, ns, names[k], m[names[k]], level)
    {
    }
  }

  /** One include per name, in the order of the names. */
  lemma ChildIncludesShape(norm: Normalizer, ns: string, names: seq<string>)
    ensures var doc := ChildIncludes(norm, ns, names);
      |doc| == |names| && forall k :: 0 <= k < |names| ==> doc[k] == Include(FileName(norm(ns, names[k])))
  {
    var f := IncludePiece(norm, ns);
    FlattenSingles(names, f);
  }

  /** The node file carries its heading, then one include per child, in order. */
  lemma NodeWriteShape(norm: Normalizer, ns: string, heading: Element, names: seq<string>)
    ensures var w := NodeWrite(norm, ns, heading, names);
      && w.file == FileName(ns)
      && |w.doc| == |names| + 1
      && w.doc[0] == heading
      && forall k :: 0 <= k < |names| ==> w.doc[k + 1] == Include(FileName(norm(ns, names[k])))
  {
    ChildIncludesShape(norm, ns, names);
  }

  /**
   * Below an inner node, each child in turn gets its resource file and then its
   * own file; the node's file comes last.
   */
  lemma TreeWritesShape(norm: Normalizer, ns: string, heading: Element, names: seq<string>,
                        m: map<string, Resource>, level: nat)
    requires forall n :: n in names ==> n in m
    ensures var w := TreeWrites(norm, ns, heading, names, m, level);
      && |w| == 2 * |names| + 1
      && (forall k :: 0 <= k < |names| ==>
            && w[2 * k] == ResourceWrite(norm, m[names[k]], level, norm(ns, names[k]))
            && w[2 * k + 1] == Write(FileName(norm(ns, names[k])),
                                     [Title(level, [Mono(names[k])]), Include(ResourceFile(norm, norm(ns, names[k])))]))
      && w[2 * |names|] == NodeWrite(norm, ns, heading, names)
  {
    LeavesPlanShape(norm, ns, names, m, level);
  }

  /** Of two children, the one at the smaller position has its file written, and included, first. */
  lemma TreeWritesOrder(norm: Normalizer, ns: string, heading: Element, names: seq<string>,
                        m: map<string, Resource>, level: nat, ia: nat, ib: nat)
    requires forall n :: n in names ==> n in m
    requires ia < ib < |names|
    ensures var w := TreeWrites(norm, ns, heading, names, m, level);
      var a := names[ia];
      var b := names[ib];
      && |w| == 2 * |names| + 1
      && w[2 * ia + 1].doc == [Title(level, [Mono(a)]), Include(ResourceFile(norm, norm(ns, a)))]
      && w[2 * ib + 1].doc == [Title(level, [Mono(b)]), Include(ResourceFile(norm, norm(ns, b)))]
      && w[2 * ia + 1].file == FileName(norm(ns, a)) && w[2 * ib + 1].file == FileName(norm(ns, b))
      && |w[2 * |names|].doc| == |names| + 1
      && w[2 * |names|].doc[ia + 1] == Include(FileName(norm(ns, a)))
      && w[2 * |names|].doc[ib + 1] == Include(FileName(norm(ns, b)))
  {
    TreeWritesShape(norm, ns, heading, names, m, level);
    NodeWriteShape(norm, ns, heading, names);
  }

  /** In a strictly sorted sequence, the smaller of two members comes first. */
  lemma SortedPositions(names: seq<string>, a: string, b: string) returns (ia: nat, ib: nat)
    requires StrictlySorted(names) && a in names && b in names && LexLt(a, b)
    ensures ia < ib < |names| && names[ia] == a && names[ib] == b
  {
    var i :| 0 <= i < |names| && names[i] == a;
    var j :| 0 <= j < |names| && names[j] == b;
    if j <= i {
      if j < i {
        LexLeAntisymmetric(a, b);
      }
    }
    ia, ib := i, j;
  }

  /**
   * Below a node whose children are sorted, of two children the one that sorts
   * first has its file written first and included first in the node's file.
   */
  lemma TreeChildrenInOrder(norm: Normalizer, ns: string, heading: Element, names: seq<string>,
                            m: map<string, Resource>, level: nat, a: string, b: string)
    requires forall n :: n in names ==> n in m
    requires StrictlySorted(names) && a in names && b in names && LexLt(a, b)
    ensures |TreeWrites(norm, ns, heading, names, m, level)| > 0
    ensures var w := TreeWrites(norm, ns, heading, names, m, level);
      exists i, j :: 0 <= i < j < |w| - 1
        && w[i] == Write(FileName(norm(ns, a)), [Title(level, [Mono(a)]), Include(ResourceFile(norm, norm(ns, a)))])
        && w[j] == Write(FileName(norm(ns, b)), [Title(level, [Mono(b)]), Include(ResourceFile(norm, norm(ns, b)))])
    ensures var node := Last(TreeWrites(norm, ns, heading, names, m, level));
      exists p, q :: 0 <= p < q < |node.doc|
        && node.doc[p] == Include(FileName(norm(ns, a))) && node.doc[q] == Include(FileName(norm(ns, b)))
  {
    var ia, ib := SortedPositions(names, a, b);
    TreeWritesOrder(norm, ns, heading, names, m, level, ia, ib);
    var w := TreeWrites(norm, ns, heading, names, m, level);
    assert w[2 * ia + 1].doc[0] == Title(level, [Mono(a)]);
    assert 2 * ib + 1 < |w| - 1;
    assert Last(w) == w[2 * |names|];
    assert Last(w).doc[ia + 1] == Include(FileName(norm(ns, a)));
  }

  /**
   * Of two paths of a flat table, the one that sorts first has its path file
   * written first and included first in the aggregate.
   */
  lemma FlatPathsInAscendingOrder(norm: Normalizer, paths: map<string, Resource>, parentNamespace: string,
                                  a: string, b: string)
    requires a in paths && b in paths && LexLt(a, b)
    ensures |FlatPlan(norm, paths, parentNamespace)| > 0
    ensures var plan := FlatPlan(norm, paths, parentNamespace);
      var allNs := PathsNamespace(norm, parentNamespace);
      exists i, j :: 0 <= i < j < |plan| - 1
        && plan[i] == Write(FileName(norm(allNs, a)), [Title(2, [Mono(a)]), Include(ResourceFile(norm, norm(allNs, a)))])
        && plan[j] == Write(FileName(norm(allNs, b)), [Title(2, [Mono(b)]), Include(ResourceFile(norm, norm(allNs, b)))])
    ensures var agg := Last(FlatPlan(norm, paths, parentNamespace));
      var allNs := PathsNamespace(norm, parentNamespace);
      exists p, q :: 0 <= p < q < |agg.doc|
        && agg.doc[p] == Include(FileName(norm(allNs, a))) && agg.doc[q] == Include(FileName(norm(allNs, b)))
  {
    TreeChildrenInOrder(norm, PathsNamespace(norm, parentNamespace), PathsTitle, SortedKeys(paths.Keys), paths, 2, a, b);
  }

  /**
   * Of two versions of a path, the one that sorts first has its version file
   * written first and included first in the path file.
   */
  lemma VersionsInAscendingOrder(norm: Normalizer, allNs: string, name: string, vp: VersionedPath,
                                 a: string, b: string)
    requires a in vp.versions && b in vp.versions && LexLt(a, b)
    ensures |VersionedPathWrites(norm, allNs, name, vp)| > 0
    ensures var w := VersionedPathWrites(norm, allNs, name, vp);
      var pathNs := norm(allNs, name);
      exists i, j :: 0 <= i < j < |w| - 1
        && w[i] == Write(FileName(norm(pathNs, a)), [Title(3, [Mono(a)]), Include(ResourceFile(norm, norm(pathNs, a)))])
        && w[j] == Write(FileName(norm(pathNs, b)), [Title(3, [Mono(b)]), Include(ResourceFile(norm, norm(pathNs, b)))])
    ensures var node := Last(VersionedPathWrites(norm, allNs, name, vp));
      var pathNs := norm(allNs, name);
      exists p, q :: 0 <= p < q < |node.doc|
        && node.doc[p] == Include(FileName(norm(pathNs, a))) && node.doc[q] == Include(FileName(norm(pathNs, b)))
  {
    TreeChildrenInOrder(norm, norm(allNs, name), Title(2, [Mono(name)]), SortedKeys(vp.versions.Keys), vp.versions, 3, a, b);
  }

  /**
   * Of two paths of a versioned table, the aggregate (the last write) includes the
   * path file of the one that sorts first before the other's.
   */
  lemma VersionedPathsInAscendingOrder(norm: Normalizer, vpaths: map<string, VersionedPath>, parentNamespace: string,
                                       a: string, b: string)
    requires a in vpaths && b in vpaths && LexLt(a, b)
    ensures |VersionedPlan(norm, vpaths, parentNamespace)| > 0
    ensures var agg := Last(VersionedPlan(norm, vpaths, parentNamespace));
      var allNs := PathsNamespace(norm, parentNamespace);
      && agg.file == PathsFile(norm, parentNamespace)
      && (exists p, q :: 0 <= p < q < |agg.doc|
            && agg.doc[p] == Include(FileName(norm(allNs, a))) && agg.doc[q] == Include(FileName(norm(allNs, b))))
  {
    var allNs := PathsNamespace(norm, parentNamespace);
    var names := SortedKeys(vpaths.Keys);
    var ia, ib := SortedPositions(names, a, b);
    NodeWriteShape(norm, allNs, PathsTitle, names);
    var agg := AggregateWrite(norm, allNs, names);
    assert Last(VersionedPlan(norm, vpaths, parentNamespace)) == agg;
    assert agg.doc[ia + 1] == Include(FileName(norm(allNs, a)));
    assert agg.doc[ib + 1] == Include(FileName(norm(allNs, b)));
  }

  /** An empty table of either kind writes only the aggregate, holding only its title. */
  lemma EmptyTableWritesTitleOnly(norm: Normalizer, parentNamespace: string)
    ensures FlatPlan(norm, map[], parentNamespace) == VersionedPlan(norm, map[], parentNamespace)
         == [Write(PathsFile(norm, parentNamespace), [PathsTitle])]
  {
    var flat: map<string, Resource> := map[];
    var versioned: map<string, VersionedPath> := map[];
    SortedKeysUnique([], flat.Keys);
    SortedKeysUnique([], versioned.Keys);
    var allNs := PathsNamespace(norm, parentNamespace);
    assert ChildIncludes(norm, allNs, []) == [];
    assert [PathsTitle] + [] == [PathsTitle];
  }

  // -------------------------------------------------- includes before writes

  lemma ResourceDocHasNoIncludes(r: Resource, parentLevel: nat)
    ensures Includes(ResourceDoc(r, parentLevel)) == {}
  {
    ResourceDocLevels(r, parentLevel);
  }

  /** A leaf's resource file is written before the leaf's file that includes it. */
  lemma LeafWritesResolved(ctx: set<string>, norm: Normalizer, ns: string, name: string, r: Resource, level: nat)
    ensures ResolvedAfter(ctx, LeafWrites(norm, ns, name, r, level))
    ensures FileName(norm(ns, name)) in Files(LeafWrites(norm, ns, name, r, level))
  {
    var leaf := LeafWrites(norm, ns, name, r, level);
    var leafNs := norm(ns, name);
    ResourceDocHasNoIncludes(r, level);
    assert Includes(leaf[1].doc) == {ResourceFile(norm, leafNs)} by {
      assert leaf[1].doc == [Title(level, [Mono(name)]), Include(ResourceFile(norm, leafNs))];
    }
    assert leaf[..1] == [leaf[0]];
    assert leaf[1] in leaf;
  }

  lemma {:induction false} LeavesPlanResolved(ctx: set<string>, norm: Normalizer, ns: string, names: seq<string>,
                                              m: map<string, Resource>, level: nat)
    requires forall n :: n in names ==> n in m
    ensures ResolvedAfter(ctx, LeavesPlan(norm, ns, names, m, level))
    ensures Includes(ChildIncludes(norm, ns, names)) <= Files(LeavesPlan(norm, ns, names, m, level))
    decreases |names|
  {
    if names != [] {
      var init := names[..|names| - 1];
      var last := names[|names| - 1];
      var before := LeavesPlan(norm, ns, init, m, level);
      var leaf := LeafWrites(norm, ns, last, m[last], level);
      assert LeavesPlan(norm, ns, names, m, level) == before + leaf;
      assert ChildIncludes(norm, ns, names) == ChildIncludes(norm, ns, init) + [Include(FileName(norm(ns, last)))];
      LeavesPlanResolved(ctx, norm, ns, init, m, level);
      LeafWritesResolved(ctx + Files(before), norm, ns, last, m[last], level);
      ResolvedConcat(ctx, before, leaf);
      FilesConcat(before, leaf);
      IncludesConcat(ChildIncludes(norm, ns, init), [Include(FileName(norm(ns, last)))]);
    }
  }

  /** A node's file includes exactly its children's files. */
  lemma NodeIncludes(norm: Normalizer, ns: string, heading: Element, names: seq<string>)
    requires !heading.Include?
    ensures Includes(NodeWrite(norm, ns, heading, names).doc) == Includes(ChildIncludes(norm, ns, names))
  {
    IncludesConcat([heading], ChildIncludes(norm, ns, names));
    assert Includes([heading]) == {};
  }

  /** The node's file comes after every child file it includes. */
  lemma TreeWritesResolved(ctx: set<string>, norm: Normalizer, ns: string, heading: Element, names: seq<string>,
                           m: map<string, Resource>, level: nat)
    requires !heading.Include?
    requires forall n :: n in names ==> n in m
    ensures ResolvedAfter(ctx, TreeWrites(norm, ns, heading, names, m, level))
    ensures FileName(ns) in Files(TreeWrites(norm, ns, heading, names, m, level))
  {
    var leaves := LeavesPlan(norm, ns, names, m, level);
    var node := NodeWrite(norm, ns, heading, names);
    LeavesPlanResolved(ctx, norm, ns, names, m, level);
    NodeIncludes(norm, ns, heading, names);
    assert [node][..0] == [];
    assert ResolvedAfter(ctx + Files(leaves), [node]);
    ResolvedConcat(ctx, leaves, [node]);
    FilesConcat(leaves, [node]);
  }

  lemma FlatPlanResolved(ctx: set<string>, norm: Normalizer, paths: map<string, Resource>, parentNamespace: string)
    ensures ResolvedAfter(ctx, FlatPlan(norm, paths, parentNamespace))
    ensures PathsFile(norm, parentNamespace) in Files(FlatPlan(norm, paths, parentNamespace))
  {
    TreeWritesResolved(ctx, norm, PathsNamespace(norm, parentNamespace), PathsTitle, SortedKeys(paths.Keys), paths, 2);
  }

  lemma VersionedPathResolved(ctx: set<string>, norm: Normalizer, allNs: string, name: string, vp: VersionedPath)
    ensures ResolvedAfter(ctx, VersionedPathWrites(norm, allNs, name, vp))
    ensures FileName(norm(allNs, name)) in Files(VersionedPathWrites(norm, allNs, name, vp))
  {
    TreeWritesResolved(ctx, norm, norm(allNs, name), Title(2, [Mono(name)]), SortedKeys(vp.versions.Keys), vp.versions, 3);
  }

  lemma {:induction false} VersionedPathsPlanResolved(ctx: set<string>, norm: Normalizer, allNs: string,
                                                      names: seq<string>, vpaths: map<string, VersionedPath>)
    requires forall n :: n in names ==> n in vpaths
    ensures ResolvedAfter(ctx, VersionedPathsPlan(norm, allNs, names, vpaths))
    ensures Includes(ChildIncludes(norm, allNs, names)) <= Files(VersionedPathsPlan(norm, allNs, names, vpaths))
    decreases |names|
  {
    if names != [] {
      var init := names[..|names| - 1];
      var last := names[|names| - 1];
      var before := VersionedPathsPlan(norm, allNs, init, vpaths);
      var node := VersionedPathWrites(norm, allNs, last, vpaths[last]);
      assert VersionedPathsPlan(norm, allNs, names, vpaths) == before + node;
      assert ChildIncludes(norm, allNs, names) == ChildIncludes(norm, allNs, init) + [Include(FileName(norm(allNs, last)))];
      VersionedPathsPlanResolved(ctx, norm, allNs, init, vpaths);
      VersionedPathResolved(ctx + Files(before), norm, allNs, last, vpaths[last]);
      ResolvedConcat(ctx, before, node);
      FilesConcat(before, node);
      IncludesConcat(ChildIncludes(norm, allNs, init), [Include(FileName(norm(allNs, last)))]);
    }
  }

  lemma VersionedPlanResolved(ctx: set<string>, norm: Normalizer, vpaths: map<string, VersionedPath>,
                              parentNamespace: string)
    ensures ResolvedAfter(ctx, VersionedPlan(norm, vpaths, parentNamespace))
    ensures PathsFile(norm, parentNamespace) in Files(VersionedPlan(norm, vpaths, parentNamespace))
  {
    var allNs := PathsNamespace(norm, parentNamespace);
    var names := SortedKeys(vpaths.Keys);
    var body := VersionedPathsPlan(norm, allNs, names, vpaths);
    var agg := AggregateWrite(norm, allNs, names);
    VersionedPathsPlanResolved(ctx, norm, allNs, names, vpaths);
    NodeIncludes(norm, allNs, PathsTitle, names);
    assert [agg][..0] == [];
    assert ResolvedAfter(ctx + Files(body), [agg]);
    ResolvedConcat(ctx, body, [agg]);
    FilesConcat(body, [agg]);
  }

  /** The root includes the paths aggregate when there is a path table, and nothing else. */
  lemma RootIncludes(api: ApiDescription, pathsFile: Option<string>)
    ensures Includes(RootDoc(api, pathsFile, None, None)) == if pathsFile.Some? then {pathsFile.value} else {}
  {
    var header := [ Title(0, [Plain("API Descriptor")]), Title(1, [Plain("ID: "), Mono(api.id)]),
                    Newline, Raw(api.description), Newline, Newline ];
    assert RootDoc(api, pathsFile, None, None) == header + IncludeIfPresent(pathsFile);
    IncludesConcat(header, IncludeIfPresent(pathsFile));
    assert Includes(header) == {};
  }

  /** The root, written after `body`, includes only the aggregate `body` has written. */
  lemma RootAfterResolved(ctx: set<string>, norm: Normalizer, api: ApiDescription, body: seq<Write>)
    requires ResolvedAfter(ctx, body)
    requires PathsFile(norm, api.id) in Files(body)
    ensures ResolvedAfter(ctx, body + [RootWrite(norm, api, Some(PathsFile(norm, api.id)), None, None, api.id)])
  {
    var root := RootWrite(norm, api, Some(PathsFile(norm, api.id)), None, None, api.id);
    RootIncludes(api, Some(PathsFile(norm, api.id)));
    assert [root][..0] == [];
    assert ResolvedAfter(ctx + Files(body), [root]);
    ResolvedConcat(ctx, body, [root]);
  }

  /** Every include of every file `execute` writes names a file written before it. */
  lemma ExecutePlanResolved(ctx: set<string>, norm: Normalizer, api: ApiDescription)
    ensures ResolvedAfter(ctx, ExecutePlan(norm, api))
  {
    var ns := api.id;
    match api.paths
    case None =>
      RootIncludes(api, None);
      assert [RootWrite(norm, api, None, None, None, ns)][..0] == [];
    case Some(Unsupported(_)) =>
    case Some(Flat(p)) =>
      FlatPlanResolved(ctx, norm, p, ns);
      RootAfterResolved(ctx, norm, api, FlatPlan(norm, p, ns));
    case Some(Versioned(v)) =>
      VersionedPlanResolved(ctx, norm, v, ns);
      RootAfterResolved(ctx, norm, api, VersionedPlan(norm, v, ns));
  }

  /**
   * Whatever part of its plan `execute` manages to write before a write fails,
   * a log whose includes all name earlier files keeps that property.
   */
  lemma ExecuteKeepsLogResolved(log: seq<Write>, norm: Normalizer, api: ApiDescription, refuses: string -> bool)
    requires Resolved(log)
    ensures Resolved(log + Landed(ExecutePlan(norm, api), refuses))
  {
    ExecutePlanResolved(Files(log), norm, api);
    LandedResolved(log, ExecutePlan(norm, api), refuses);
  }

  /**
   * Unless the path table is unsupported, the root file is the last write, and it
   * includes the paths aggregate exactly when there is a path table.
   */
  lemma RootWrittenLast(norm: Normalizer, api: ApiDescription)
    requires !(api.paths.Some? && api.paths.value.Unsupported?)
    ensures var plan := ExecutePlan(norm, api);
      && |plan| > 0
      && plan[|plan| - 1].file == FileName(norm(api.id, "index"))
      && Includes(plan[|plan| - 1].doc) == if api.paths.Some? then {PathsFile(norm, api.id)} else {}
  {
    if api.paths.Some? {
      RootIncludes(api, Some(PathsFile(norm, api.id)));
    } else {
      RootIncludes(api, None);
    }
  }

  // ---------------------------------------------------------------- examples

  /** Paths "b" and "a" are written, and included, "a" first. */
  lemma TwoFlatPathsExample(norm: Normalizer, ra: Resource, rb: Resource, parentNamespace: string)
    ensures var allNs := PathsNamespace(norm, parentNamespace);
      var plan := FlatPlan(norm, map["b" := rb, "a" := ra], parentNamespace);
      && |plan| == 5
      && plan[1].file == FileName(norm(allNs, "a"))
      && plan[3].file == FileName(norm(allNs, "b"))
      && plan[4] == Write(PathsFile(norm, parentNamespace),
           [PathsTitle, Include(FileName(norm(allNs, "a"))), Include(FileName(norm(allNs, "b")))])
  {
    var paths := map["b" := rb, "a" := ra];
    var allNs := PathsNamespace(norm, parentNamespace);
    assert LexLt("a", "b");
    TwoSortedKeys("a", "b", rb, ra);
    TreeWritesPair(norm, allNs, PathsTitle, "a", "b", paths, 2);
  }

  /** Versions "2.0" and "1.0" of one path are written, and included by the path file, "1.0" first. */
  lemma TwoVersionsExample(norm: Normalizer, r1: Resource, r2: Resource, allNs: string)
    ensures var pathNs := norm(allNs, "/things");
      var w := VersionedPathWrites(norm, allNs, "/things", VersionedPath(map["2.0" := r2, "1.0" := r1]));
      && |w| == 5
      && w[1].file == FileName(norm(pathNs, "1.0"))
      && w[3].file == FileName(norm(pathNs, "2.0"))
      && w[4] == Write(FileName(pathNs),
           [Title(2, [Mono("/things")]), Include(FileName(norm(pathNs, "1.0"))), Include(FileName(norm(pathNs, "2.0")))])
  {
    var versions := map["2.0" := r2, "1.0" := r1];
    var pathNs := norm(allNs, "/things");
    assert LexLt("1.0", "2.0");
    TwoSortedKeys("1.0", "2.0", r2, r1);
    TreeWritesPair(norm, pathNs, Title(2, [Mono("/things")]), "1.0", "2.0", versions, 3);
  }

  /** A resource with only a read operation gets a single "Read" heading. */
  lemma ReadOnlyResourceDoc(read: Operation, parentLevel: nat)
    ensures ResourceDoc(Resource(None, None, Some(read), None, None, None, None, None), parentLevel)
         == [Title(parentLevel + 1, [Plain("Read")])]
  {
  }

  /** The keys of a two-entry table, in ascending order. */
  lemma TwoSortedKeys(a: string, b: string, rb: Resource, ra: Resource)
    requires LexLt(a, b)
    ensures SortedKeys(map[b := rb, a := ra].Keys) == [a, b]
  {
    SortedKeysUnique([a, b], map[b := rb, a := ra].Keys);
  }

  /** A tree with two leaves, written out. */
  lemma TreeWritesPair(norm: Normalizer, ns: string, heading: Element, a: string, b: string,
                       m: map<string, Resource>, level: nat)
    requires a in m && b in m
    ensures TreeWrites(norm, ns, heading, [a, b], m, level)
         == LeafWrites(norm, ns, a, m[a], level) + LeafWrites(norm, ns, b, m[b], level)
            + [Write(FileName(ns), [heading, Include(FileName(norm(ns, a))), Include(FileName(norm(ns, b)))])]
  {
    var names := [a, b];
    var leaf := LeafPiece(norm, ns, m, level);
    var incl := IncludePiece(norm, ns);
    assert names[..1] == [a];
    FlattenOne([a], leaf);
    FlattenOne([a], incl);
    assert Flatten(names, leaf) == leaf(a) + leaf(b);
    assert Flatten(names, incl) == incl(a) + incl(b);
    assert [heading] + Flatten(names, incl)
        == [heading, Include(FileName(norm(ns, a))), Include(FileName(norm(ns, b)))];
    assert leaf(a) == LeafWrites(norm, ns, a, m[a], level);
    assert leaf(b) == LeafWrites(norm, ns, b, m[b], level);
  }

  /** A node with a single child writes the child's two files, then its own file including the child. */
  lemma TreeWritesSingle(norm: Normalizer, ns: string, heading: Element, n: string,
                         m: map<string, Resource>, level: nat)
    requires n in m
    ensures TreeWrites(norm, ns, heading, [n], m, level)
         == LeafWrites(norm, ns, n, m[n], level) + [Write(FileName(ns), [heading, Include(FileName(norm(ns, n)))])]
  {
    FlattenOne([n], LeafPiece(norm, ns, m, level));
    FlattenOne([n], IncludePiece(norm, ns));
    assert LeafPiece(norm, ns, m, level)(n) == LeafWrites(norm, ns, n, m[n], level);
    assert [heading] + [Include(FileName(norm(ns, n)))] == [heading, Include(FileName(norm(ns, n)))];
  }

  /** A single flat path "/pets" whose resource only reads: its resource file, its path file, the aggregate. */
  lemma SinglePathPlan(norm: Normalizer, read: Operation, parentNamespace: string)
    ensures var pets := Resource(None, None, Some(read), None, None, None, None, None);
      var allNs := PathsNamespace(norm, parentNamespace);
      var pathNs := norm(allNs, "/pets");
      FlatPlan(norm, map["/pets" := pets], parentNamespace) == [
        Write(FileName(norm(pathNs, "resource")), [Title(3, [Plain("Read")])]),
        Write(FileName(pathNs), [Title(2, [Mono("/pets")]), Include(FileName(norm(pathNs, "resource")))]),
        Write(FileName(allNs), [PathsTitle, Include(FileName(pathNs))])
      ]
  {
    var pets := Resource(None, None, Some(read), None, None, None, None, None);
    var paths := map["/pets" := pets];
    SortedKeysUnique(["/pets"], paths.Keys);
    TreeWritesSingle(norm, PathsNamespace(norm, parentNamespace), PathsTitle, "/pets", paths, 2);
    ReadOnlyResourceDoc(read, 2);
  }

  /**
   * A description "petstore" with one flat path "/pets" that only has a read
   * operation yields exactly: the resource file with a "Read" heading, the path
   * file, the aggregate and the root, in that order.
   */
  lemma PetstoreExample(norm: Normalizer, read: Operation)
    ensures var pets := Resource(None, None, Some(read), None, None, None, None, None);
      var api := ApiDescription("petstore", "Pets API", Some(Flat(map["/pets" := pets])), None, None);
      var allNs := norm("petstore", "paths");
      var pathNs := norm(allNs, "/pets");
      ExecutePlan(norm, api) == [
        Write(FileName(norm(pathNs, "resource")), [Title(3, [Plain("Read")])]),
        Write(FileName(pathNs), [Title(2, [Mono("/pets")]), Include(FileName(norm(pathNs, "resource")))]),
        Write(FileName(allNs), [PathsTitle, Include(FileName(pathNs))]),
        Write(FileName(norm("petstore", "index")),
          [Title(0, [Plain("API Descriptor")]), Title(1, [Plain("ID: "), Mono("petstore")]),
           Newline, Raw("Pets API"), Newline, Newline, Include(FileName(allNs))])
      ]
  {
    var pets := Resource(None, None, Some(read), None, None, None, None, None);
    var api := ApiDescription("petstore", "Pets API", Some(Flat(map["/pets" := pets])), None, None);
    var allNs := norm("petstore", "paths");
    SinglePathPlan(norm, read, "petstore");
    RootDocPathsOnly(api, FileName(allNs));
  }

  /** The root document of a description whose only summary is the paths file. */
  lemma RootDocPathsOnly(api: ApiDescription, pathsFile: string)
    ensures RootDoc(api, Some(pathsFile), None, None) ==
      [Title(0, [Plain("API Descriptor")]), Title(1, [Plain("ID: "), Mono(api.id)]),
       Newline, Raw(api.description), Newline, Newline, Include(pathsFile)]
  {
  }
}
