/**
 * Documents as sequences of markup elements, and the log of files written to the
 * output directory. The markup syntax itself and its serialisation are not
 * modelled: a document is the list of structured appends made to it.
 */
module AsciiDocModel {

  /** Inline text: plain or monospace. */
  datatype Span = Plain(text: string) | Mono(text: string)

  /**
   * One append to a document: a title (level 0 is the document title, level n a
   * section title of level n), raw text, a line break, or an include directive.
   */
  datatype Element =
    | Title(level: nat, spans: seq<Span>)
    | Raw(text: string)
    | Newline
    | Include(file: string)

  type Doc = seq<Element>

  /** One serialisation of a document to a file of the output directory. */
  datatype Write = Write(file: string, doc: Doc)

  /** The files a document includes. */
  function Includes(doc: Doc): set<string>
  {
    set e | e in doc && e.Include? :: e.file
  }

  lemma IncludesConcat(a: Doc, b: Doc)
    ensures Includes(a + b) == Includes(a) + Includes(b)
  {
    assert forall e :: e in a + b <==> e in a || e in b;
  }

  /** The last write of a non-empty log. */
  function Last(log: seq<Write>): Write
    requires |log| > 0
  {
    log[|log| - 1]
  }

  /** The files a log has written. */
  function Files(log: seq<Write>): set<string>
  {
    set w | w in log :: w.file
  }

  lemma FilesConcat(a: seq<Write>, b: seq<Write>)
    ensures Files(a + b) == Files(a) + Files(b)
  {
    assert forall w :: w in a + b <==> w in a || w in b;
  }

  /**
   * Every include of every write names a file in `ctx` or one written earlier in
   * `log`: no document refers to a file that does not exist yet.
   */
  ghost predicate ResolvedAfter(ctx: set<string>, log: seq<Write>)
  {
    forall i :: 0 <= i < |log| ==> Includes(log[i].doc) <= ctx + Files(log[..i])
  }

  ghost predicate Resolved(log: seq<Write>)
  {
    ResolvedAfter({}, log)
  }

  lemma ResolvedConcat(ctx: set<string>, a: seq<Write>, b: seq<Write>)
    requires ResolvedAfter(ctx, a)
    requires ResolvedAfter(ctx + Files(a), b)
    ensures ResolvedAfter(ctx, a + b)
  {
    forall i | 0 <= i < |a + b|
      ensures Includes((a + b)[i].doc) <= ctx + Files((a + b)[..i])
    {
      if i < |a| {
        assert (a + b)[..i] == a[..i];
      } else {
        assert (a + b)[..i] == a + b[..i - |a|];
        FilesConcat(a, b[..i - |a|]);
      }
    }
  }

  lemma ResolvedPrefix(ctx: set<string>, log: seq<Write>, k: nat)
    requires ResolvedAfter(ctx, log) && k <= |log|
    ensures ResolvedAfter(ctx, log[..k])
  {
    forall i | 0 <= i < k
      ensures Includes(log[..k][i].doc) <= ctx + Files(log[..k][..i])
    {
      assert log[..k][..i] == log[..i];
    }
  }

  lemma ResolvedWiden(ctx: set<string>, ctx': set<string>, log: seq<Write>)
    requires ResolvedAfter(ctx, log) && ctx <= ctx'
    ensures ResolvedAfter(ctx', log)
  {
  }

  /**
   * The writes of `plan` that reach the disk when the file system refuses the
   * files `refuses` names: the first refused write throws, and nothing after it
   * is attempted.
   */
  function Landed(plan: seq<Write>, refuses: string -> bool): (r: seq<Write>)
    ensures |r| <= |plan| && r == plan[..|r|]
    ensures |r| < |plan| ==> refuses(plan[|r|].file)
    ensures forall i :: 0 <= i < |r| ==> !refuses(r[i].file)
    decreases |plan|
  {
    if plan == [] then []
    else if refuses(plan[0].file) then []
    else [plan[0]] + Landed(plan[1..], refuses)
  }

  /** No write of the plan is refused. */
  predicate AllLand(plan: seq<Write>, refuses: string -> bool)
  {
    forall i :: 0 <= i < |plan| ==> !refuses(plan[i].file)
  }

  lemma LandedAll(plan: seq<Write>, refuses: string -> bool)
    ensures AllLand(plan, refuses) <==> Landed(plan, refuses) == plan
  {
  }

  lemma {:induction false} LandedConcat(a: seq<Write>, b: seq<Write>, refuses: string -> bool)
    ensures Landed(a + b, refuses) == if AllLand(a, refuses) then a + Landed(b, refuses) else Landed(a, refuses)
    decreases |a|
  {
    if a != [] {
      assert (a + b)[1..] == a[1..] + b;
      LandedConcat(a[1..], b, refuses);
      if AllLand(a, refuses) {
        assert AllLand(a[1..], refuses);
        assert a == [a[0]] + a[1..];
      }
    } else {
      assert a + b == b;
    }
  }

  /** Once every write of `done` has landed, a refused write ends the run there. */
  lemma LandedStops(done: seq<Write>, w: Write, rest: seq<Write>, refuses: string -> bool)
    requires AllLand(done, refuses) && refuses(w.file)
    ensures Landed(done + [w] + rest, refuses) == done
  {
    assert done + [w] + rest == done + ([w] + rest);
    LandedConcat(done, [w] + rest, refuses);
  }

  /** A write refused at position `k`, after `k` writes that landed, ends the run there. */
  lemma {:induction false} LandedStopsAt(plan: seq<Write>, k: nat, refuses: string -> bool)
    requires k < |plan| && AllLand(plan[..k], refuses) && refuses(plan[k].file)
    ensures Landed(plan, refuses) == plan[..k]
  {
    if k > 0 {
      var tail := plan[1..];
      var done := tail[..k - 1];
      var before := plan[..k];
      assert !refuses(before[0].file);
      assert AllLand(done, refuses) by {
        forall i | 0 <= i < |done|
          ensures !refuses(done[i].file)
        {
          assert done[i] == before[i + 1];
        }
      }
      LandedStopsAt(tail, k - 1, refuses);
      assert before == [plan[0]] + done;
    }
  }

  /** A log whose includes are all resolved stays so when any prefix of a resolved plan is appended. */
  lemma LandedResolved(log: seq<Write>, plan: seq<Write>, refuses: string -> bool)
    requires Resolved(log)
    requires ResolvedAfter(Files(log), plan)
    ensures Resolved(log + Landed(plan, refuses))
  {
    var landed := Landed(plan, refuses);
    ResolvedPrefix(Files(log), plan, |landed|);
    assert {} + Files(log) == Files(log);
    ResolvedConcat({}, log, landed);
  }
}
