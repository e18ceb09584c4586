/**
 Table-level lineage extracted from one raw SQL query (lineage/query.py).

 The SQL tokenizer, the per-statement lineage analyzer and the table-name
 resolver are external collaborators, so they enter this model as inputs:
 - the tokenizer's output is a sequence `parsed: seq<P>` of raw statements,
   `hasFirstToken` tells whether a statement has a first token once comments
   and white space are skipped, and `analyze` is the analyzer;
 - each analyzed statement is a `Statement<R>` record of table references `R`;
 - the resolver is an arbitrary function `resolve: R -> N` from a reference
   to a qualified table name `N`; nothing here assumes it is injective.
 */
module LineageQuery {

  datatype Option<+T> = None | Some(value: T)

  /** What the lineage analyzer reports about one SQL statement. */
  datatype Statement<R> = Statement(
    read: set<R>,
    write: set<R>,
    intermediate: set<R>,   // tables the analyzer marks as intermediate, i.e. CTEs
    drop: set<R>,
    rename: set<(R, R)>     // (old, new) pairs
  )

  /** The four results of parsing one query, in the order the source returns them. */
  datatype Lineage<N> = Lineage(
    source: set<N>,
    target: set<N>,
    renamed: set<(N, N)>,
    dropped: set<N>
  )

  /** The tables a statement reads that are not CTEs of that same statement. */
  function SourceRefs<R>(st: Statement<R>): set<R>
  {
    st.read - st.intermediate
  }

  /** The qualified names of a set of references. */
  function Image<R, N>(refs: set<R>, resolve: R -> N): (names: set<N>)
    ensures forall t {:trigger t in refs} :: t in refs ==> resolve(t) in names
    ensures forall n :: n in names ==> exists t :: t in refs && resolve(t) == n
    ensures names == {} <==> refs == {}
  {
    set t | t in refs :: resolve(t)
  }

  /** The qualified (old, new) pairs of a set of rename pairs. */
  function RenameImage<R(==), N(==)>(pairs: set<(R, R)>, resolve: R -> N): (names: set<(N, N)>)
    ensures forall q :: q in pairs ==> (resolve(q.0), resolve(q.1)) in names
    ensures forall p :: p in names ==> exists q :: q in pairs && p == (resolve(q.0), resolve(q.1))
  {
    set q | q in pairs :: (resolve(q.0), resolve(q.1))
  }

  // ---------------------------------------------------------------------------
  // Statement filter and platform hook
  // ---------------------------------------------------------------------------

  /**
   The analyzed statements of a query: every parsed statement that has a first
   token (after skipping comments and white space) is analyzed, in order; the
   others are dropped.
   */
  function AnalyzedStatements<P, R>(parsed: seq<P>, hasFirstToken: P -> bool, analyze: P -> Statement<R>)
    : (stmts: seq<Statement<R>>)
    ensures |stmts| <= |parsed|
    ensures (forall i :: 0 <= i < |parsed| ==> hasFirstToken(parsed[i])) ==> |stmts| == |parsed|
  {
    if parsed == [] then []
    else
      var rest := AnalyzedStatements(parsed[1..], hasFirstToken, analyze);
      if hasFirstToken(parsed[0]) then [analyze(parsed[0])] + rest else rest
  }

  /** Exactly the statements that have a first token are analyzed; nothing else appears. */
  lemma {:induction false} AnalyzedStatementsMembers<P, R>(
    parsed: seq<P>, hasFirstToken: P -> bool, analyze: P -> Statement<R>)
    ensures forall p :: p in parsed && hasFirstToken(p) ==> analyze(p) in AnalyzedStatements(parsed, hasFirstToken, analyze)
    ensures forall st :: st in AnalyzedStatements(parsed, hasFirstToken, analyze) ==>
              exists p :: p in parsed && hasFirstToken(p) && analyze(p) == st
  {
    if parsed != [] {
      AnalyzedStatementsMembers(parsed[1..], hasFirstToken, analyze);
      assert forall p :: p in parsed ==> p == parsed[0] || p in parsed[1..];
    }
  }

  /** The filter keeps the order of the statements: it distributes over concatenation. */
  lemma {:induction false} AnalyzedStatementsConcat<P, R>(
    a: seq<P>, b: seq<P>, hasFirstToken: P -> bool, analyze: P -> Statement<R>)
    ensures AnalyzedStatements(a + b, hasFirstToken, analyze)
         == AnalyzedStatements(a, hasFirstToken, analyze) + AnalyzedStatements(b, hasFirstToken, analyze)
  {
    if a != [] {
      assert (a + b)[1..] == a[1..] + b;
      AnalyzedStatementsConcat(a[1..], b, hasFirstToken, analyze);
    } else {
      assert a + b == b;
    }
  }

  /** The base class's platform-specific hook finds neither sources nor targets. */
  function DefaultPlatformHook<N>(rawQueryText: string): (found: (set<N>, set<N>))
    ensures found.0 == {} && found.1 == {}
  {
    ({}, {})
  }

  /** A hook result that is not empty in either component decides the whole answer. */
  predicate HookDecides<N>(found: (set<N>, set<N>))
  {
    |found.0| > 0 || |found.1| > 0
  }

  // ---------------------------------------------------------------------------
  // The per-statement fold, as a specification
  // ---------------------------------------------------------------------------

  /**
   One iteration of the fold: drops and renames accumulate; sources and targets
   are taken from this statement only while they are still empty (a later
   conflicting statement is only logged, which changes nothing).
   */
  function Step<R, N>(acc: Lineage<N>, st: Statement<R>, resolve: R -> N): Lineage<N>
  {
    Lineage(
      if acc.source == {} then Image(SourceRefs(st), resolve) else acc.source,
      if acc.target == {} then Image(st.write, resolve) else acc.target,
      acc.renamed + RenameImage(st.rename, resolve),
      acc.dropped + Image(st.drop, resolve))
  }

  /** The fold over the statements, in order, starting from four empty sets. */
  function Fold<R, N>(stmts: seq<Statement<R>>, resolve: R -> N): Lineage<N>
  {
    if stmts == [] then Lineage({}, {}, {}, {})
    else Step(Fold(stmts[..|stmts| - 1], resolve), stmts[|stmts| - 1], resolve)
  }

  /** What `_parse_query_text` returns, given the hook's result and the analyzed statements. */
  function ParseQueryTextSpec<R, N>(found: (set<N>, set<N>), stmts: seq<Statement<R>>, resolve: R -> N)
    : Lineage<N>
  {
    if HookDecides(found) then Lineage(found.0, found.1, {}, {}) else Fold(stmts, resolve)
  }

  // ---------------------------------------------------------------------------
  // Reference definitions, independent of the fold
  // ---------------------------------------------------------------------------

  /** Every resolved dropped table of every statement, and nothing else. */
  ghost predicate DroppedOf<R, N>(stmts: seq<Statement<R>>, resolve: R -> N, dropped: set<N>)
  {
    (forall i, t :: 0 <= i < |stmts| && t in stmts[i].drop ==> resolve(t) in dropped) &&
    forall n :: n in dropped ==> exists i, t :: 0 <= i < |stmts| && t in stmts[i].drop && resolve(t) == n
  }

  /** Every resolved rename pair of every statement, and nothing else. */
  ghost predicate RenamedOf<R, N>(stmts: seq<Statement<R>>, resolve: R -> N, renamed: set<(N, N)>)
  {
    (forall i, q :: 0 <= i < |stmts| && q in stmts[i].rename ==> (resolve(q.0), resolve(q.1)) in renamed) &&
    forall p :: p in renamed ==>
      exists i, q :: 0 <= i < |stmts| && q in stmts[i].rename && p == (resolve(q.0), resolve(q.1))
  }

  /** Statement k is the first one that reads a table which is not one of its CTEs. */
  ghost predicate FirstSourceStatement<R>(stmts: seq<Statement<R>>, k: int)
  {
    0 <= k < |stmts| && SourceRefs(stmts[k]) != {} &&
    forall j :: 0 <= j < k ==> SourceRefs(stmts[j]) == {}
  }

  /** Statement k is the first one that writes a table. */
  ghost predicate FirstTargetStatement<R>(stmts: seq<Statement<R>>, k: int)
  {
    0 <= k < |stmts| && stmts[k].write != {} &&
    forall j :: 0 <= j < k ==> stmts[j].write == {}
  }

  /** Sources: the resolved non-CTE reads of the first statement that has any, else none. */
  ghost predicate SourceOf<R, N>(stmts: seq<Statement<R>>, resolve: R -> N, source: set<N>)
  {
    ((forall i :: 0 <= i < |stmts| ==> SourceRefs(stmts[i]) == {}) ==> source == {}) &&
    forall k :: FirstSourceStatement(stmts, k) ==> source == Image(SourceRefs(stmts[k]), resolve)
  }

  /** Targets: the resolved writes of the first statement that writes, else none. */
  ghost predicate TargetOf<R, N>(stmts: seq<Statement<R>>, resolve: R -> N, target: set<N>)
  {
    ((forall i :: 0 <= i < |stmts| ==> stmts[i].write == {}) ==> target == {}) &&
    forall k :: FirstTargetStatement(stmts, k) ==> target == Image(stmts[k].write, resolve)
  }

  /** The lineage of a statement sequence, stated field by field. */
  ghost predicate LineageOf<R, N>(stmts: seq<Statement<R>>, resolve: R -> N, r: Lineage<N>)
  {
    SourceOf(stmts, resolve, r.source) && TargetOf(stmts, resolve, r.target) &&
    RenamedOf(stmts, resolve, r.renamed) && DroppedOf(stmts, resolve, r.dropped)
  }

  // ---------------------------------------------------------------------------
  // The fold meets the reference definitions
  // ---------------------------------------------------------------------------

  lemma {:induction false} FoldDropped<R, N>(stmts: seq<Statement<R>>, resolve: R -> N)
    ensures DroppedOf(stmts, resolve, Fold(stmts, resolve).dropped)
  {
    if stmts != [] {
      var prefix, last := stmts[..|stmts| - 1], stmts[|stmts| - 1];
      FoldDropped(prefix, resolve);
      var before := Fold(prefix, resolve).dropped;
      assert Fold(stmts, resolve).dropped == before + Image(last.drop, resolve);
      forall n | n in Fold(stmts, resolve).dropped
        ensures exists i, t :: 0 <= i < |stmts| && t in stmts[i].drop && resolve(t) == n
      {
        if n in before {
          var i, t :| 0 <= i < |prefix| && t in prefix[i].drop && resolve(t) == n;
          assert stmts[i] == prefix[i];
        } else {
          var t :| t in last.drop && resolve(t) == n;
          assert stmts[|stmts| - 1] == last;
        }
      }
      forall i, t | 0 <= i < |stmts| && t in stmts[i].drop
        ensures resolve(t) in Fold(stmts, resolve).dropped
      {
        if i < |prefix| {
          assert t in prefix[i].drop;
        }
      }
    }
  }

  lemma {:induction false} FoldRenamed<R, N>(stmts: seq<Statement<R>>, resolve: R -> N)
    ensures RenamedOf(stmts, resolve, Fold(stmts, resolve).renamed)
  {
    if stmts != [] {
      var prefix, last := stmts[..|stmts| - 1], stmts[|stmts| - 1];
      FoldRenamed(prefix, resolve);
      var before := Fold(prefix, resolve).renamed;
      assert Fold(stmts, resolve).renamed == before + RenameImage(last.rename, resolve);
      forall p | p in Fold(stmts, resolve).renamed
        ensures exists i, q :: 0 <= i < |stmts| && q in stmts[i].rename && p == (resolve(q.0), resolve(q.1))
      {
        if p in before {
          var i, q :| 0 <= i < |prefix| && q in prefix[i].rename && p == (resolve(q.0), resolve(q.1));
          assert stmts[i] == prefix[i];
        } else {
          var q :| q in last.rename && p == (resolve(q.0), resolve(q.1));
          assert stmts[|stmts| - 1] == last;
        }
      }
      forall i, q | 0 <= i < |stmts| && q in stmts[i].rename
        ensures (resolve(q.0), resolve(q.1)) in Fold(stmts, resolve).renamed
      {
        if i < |prefix| {
          assert q in prefix[i].rename;
        }
      }
    }
  }

  lemma {:induction false} FoldSource<R, N>(stmts: seq<Statement<R>>, resolve: R -> N)
    ensures SourceOf(stmts, resolve, Fold(stmts, resolve).source)
  {
    if stmts != [] {
      var prefix, last := stmts[..|stmts| - 1], stmts[|stmts| - 1];
      FoldSource(prefix, resolve);
      var before := Fold(prefix, resolve).source;
      var after := Fold(stmts, resolve).source;
      assert forall j :: 0 <= j < |prefix| ==> stmts[j] == prefix[j];
      forall k | FirstSourceStatement(stmts, k)
        ensures after == Image(SourceRefs(stmts[k]), resolve)
      {
        if k < |prefix| {
          assert FirstSourceStatement(prefix, k);
        } else {
          assert forall i :: 0 <= i < |prefix| ==> SourceRefs(prefix[i]) == {};
        }
      }
      if forall i :: 0 <= i < |stmts| ==> SourceRefs(stmts[i]) == {} {
        assert SourceRefs(stmts[|stmts| - 1]) == {};
      }
    }
  }

  lemma {:induction false} FoldTarget<R, N>(stmts: seq<Statement<R>>, resolve: R -> N)
    ensures TargetOf(stmts, resolve, Fold(stmts, resolve).target)
  {
    if stmts != [] {
      var prefix, last := stmts[..|stmts| - 1], stmts[|stmts| - 1];
      FoldTarget(prefix, resolve);
      var before := Fold(prefix, resolve).target;
      var after := Fold(stmts, resolve).target;
      assert forall j :: 0 <= j < |prefix| ==> stmts[j] == prefix[j];
      forall k | FirstTargetStatement(stmts, k)
        ensures after == Image(stmts[k].write, resolve)
      {
        if k < |prefix| {
          assert FirstTargetStatement(prefix, k);
        } else {
          assert forall i :: 0 <= i < |prefix| ==> prefix[i].write == {};
        }
      }
      if forall i :: 0 <= i < |stmts| ==> stmts[i].write == {} {
        assert stmts[|stmts| - 1].write == {};
      }
    }
  }

  /** The fold computes exactly the lineage the reference definitions describe. */
  lemma FoldIsLineage<R, N>(stmts: seq<Statement<R>>, resolve: R -> N)
    ensures LineageOf(stmts, resolve, Fold(stmts, resolve))
  {
    FoldSource(stmts, resolve);
    FoldTarget(stmts, resolve);
    FoldRenamed(stmts, resolve);
    FoldDropped(stmts, resolve);
  }

  /** If some statement has a non-CTE read, there is a first such statement. */
  lemma {:induction false} FirstSourceExists<R>(stmts: seq<Statement<R>>, i: int)
    requires 0 <= i < |stmts| && SourceRefs(stmts[i]) != {}
    ensures exists k :: FirstSourceStatement(stmts, k)
    decreases i
  {
    if !FirstSourceStatement(stmts, i) {
      var j :| 0 <= j < i && SourceRefs(stmts[j]) != {};
      FirstSourceExists(stmts, j);
    }
  }

  /** If some statement writes a table, there is a first such statement. */
  lemma {:induction false} FirstTargetExists<R>(stmts: seq<Statement<R>>, i: int)
    requires 0 <= i < |stmts| && stmts[i].write != {}
    ensures exists k :: FirstTargetStatement(stmts, k)
    decreases i
  {
    if !FirstTargetStatement(stmts, i) {
      var j :| 0 <= j < i && stmts[j].write != {};
      FirstTargetExists(stmts, j);
    }
  }

  /** The reference definitions leave no freedom: what meets them is exactly the fold's result. */
  lemma FoldIsTheOnlyLineage<R, N>(stmts: seq<Statement<R>>, resolve: R -> N)
    ensures forall r :: LineageOf(stmts, resolve, r) <==> r == Fold(stmts, resolve)
  {
    var f := Fold(stmts, resolve);
    FoldIsLineage(stmts, resolve);
    forall r | LineageOf(stmts, resolve, r)
      ensures r == f
    {
      if i :| 0 <= i < |stmts| && SourceRefs(stmts[i]) != {} {
        FirstSourceExists(stmts, i);
        var k :| FirstSourceStatement(stmts, k);
        assert r.source == f.source;
      }
      if i :| 0 <= i < |stmts| && stmts[i].write != {} {
        FirstTargetExists(stmts, i);
        var k :| FirstTargetStatement(stmts, k);
        assert r.target == f.target;
      }
      assert r.renamed == f.renamed;
      assert r.dropped == f.dropped;
    }
  }

  /**
   First wins: once the sources (or the targets) are non-empty, no later
   statement changes them, conflicting or not; drops and renames only grow.
   */
  lemma {:induction false} FoldFirstWins<R, N>(stmts: seq<Statement<R>>, later: seq<Statement<R>>, resolve: R -> N)
    ensures Fold(stmts, resolve).source != {} ==> Fold(stmts + later, resolve).source == Fold(stmts, resolve).source
    ensures Fold(stmts, resolve).target != {} ==> Fold(stmts + later, resolve).target == Fold(stmts, resolve).target
    ensures Fold(stmts, resolve).renamed <= Fold(stmts + later, resolve).renamed
    ensures Fold(stmts, resolve).dropped <= Fold(stmts + later, resolve).dropped
  {
    if later == [] {
      assert stmts + later == stmts;
    } else {
      var shorter := later[..|later| - 1];
      assert (stmts + later)[..|stmts + later| - 1] == stmts + shorter;
      FoldFirstWins(stmts, shorter, resolve);
    }
  }

  /** A table that occurs in the first source statement only as a CTE is never what a source name came from. */
  lemma CteNeverSource<R, N>(stmts: seq<Statement<R>>, resolve: R -> N, n: N)
    requires n in Fold(stmts, resolve).source
    ensures exists k, t :: FirstSourceStatement(stmts, k) && t in stmts[k].read && t !in stmts[k].intermediate
                           && resolve(t) == n
  {
    FoldSource(stmts, resolve);
    var i: int :| 0 <= i < |stmts| && SourceRefs(stmts[i]) != {};
    FirstSourceExists(stmts, i);
    var k :| FirstSourceStatement(stmts, k);
    var t :| t in SourceRefs(stmts[k]) && resolve(t) == n;
  }

  // ---------------------------------------------------------------------------
  // The hook
  // ---------------------------------------------------------------------------

  /** A hook that finds anything decides the answer; renames and drops stay empty. */
  lemma HookShortCircuits<R, N>(found: (set<N>, set<N>), stmts: seq<Statement<R>>, resolve: R -> N)
    requires found.0 != {} || found.1 != {}
    ensures ParseQueryTextSpec(found, stmts, resolve) == Lineage(found.0, found.1, {}, {})
  {
    if found.0 != {} {
      var x :| x in found.0;
    } else {
      var x :| x in found.1;
    }
  }

  /** With the base class's hook the statements are always folded. */
  lemma DefaultHookFolds<R, N>(rawQueryText: string, stmts: seq<Statement<R>>, resolve: R -> N)
    ensures LineageOf(stmts, resolve, ParseQueryTextSpec(DefaultPlatformHook(rawQueryText), stmts, resolve))
  {
    FoldIsLineage(stmts, resolve);
  }

  // ---------------------------------------------------------------------------
  // The imperative routine
  // ---------------------------------------------------------------------------

  /** The inner loop over a statement's dropped tables: adds each resolved name. */
  method AddDropped<R, N(==)>(dropped: set<N>, drops: set<R>, resolve: R -> N) returns (result: set<N>)
    ensures result == dropped + Image(drops, resolve)
  {
    result := dropped;
    var pending := drops;
    while pending != {}
      invariant pending <= drops
      invariant result == dropped + Image(drops - pending, resolve)
      decreases pending
    {
      var t :| t in pending;
      ImageTakeOne(drops, pending, t, resolve);
      result := result + {resolve(t)};
      pending := pending - {t};
    }
    assert drops - pending == drops;
  }

  /** The inner loop over a statement's rename pairs: adds each resolved (old, new) pair. */
  method AddRenamed<R(==), N(==)>(renamed: set<(N, N)>, renames: set<(R, R)>, resolve: R -> N)
    returns (result: set<(N, N)>)
    ensures result == renamed + RenameImage(renames, resolve)
  {
    result := renamed;
    var pending := renames;
    while pending != {}
      invariant pending <= renames
      invariant result == renamed + RenameImage(renames - pending, resolve)
      decreases pending
    {
      var q :| q in pending;
      RenameImageTakeOne(renames, pending, q, resolve);
      var oldName, newName := resolve(q.0), resolve(q.1);
      result := result + {(oldName, newName)};
      pending := pending - {q};
    }
    assert renames - pending == renames;
  }

  /** Folding one more statement is one more step. */
  lemma FoldAppend<R, N>(stmts: seq<Statement<R>>, st: Statement<R>, resolve: R -> N)
    ensures Fold(stmts + [st], resolve) == Step(Fold(stmts, resolve), st, resolve)
  {
    assert (stmts + [st])[..|stmts|] == stmts;
  }

  /** Resolving one more reference of a set adds exactly its name. */
  lemma ImageTakeOne<R, N>(refs: set<R>, pending: set<R>, t: R, resolve: R -> N)
    requires t in pending && pending <= refs
    ensures Image(refs - (pending - {t}), resolve) == Image(refs - pending, resolve) + {resolve(t)}
  {
    assert refs - (pending - {t}) == (refs - pending) + {t};
  }

  /** Resolving one more rename pair adds exactly its resolved pair. */
  lemma RenameImageTakeOne<R, N>(pairs: set<(R, R)>, pending: set<(R, R)>, q: (R, R), resolve: R -> N)
    requires q in pending && pending <= pairs
    ensures RenameImage(pairs - (pending - {q}), resolve)
         == RenameImage(pairs - pending, resolve) + {(resolve(q.0), resolve(q.1))}
  {
    assert pairs - (pending - {q}) == (pairs - pending) + {q};
  }

  /**
   `_parse_query_text`: ask the platform hook first; if it found nothing, fold
   over the analyzed statements, adding drops and renames one table at a time
   and filling sources and targets from the first statement that has any.
   */
  method ParseQueryText<P, R(==), N(==)>(
    found: (set<N>, set<N>),
    parsed: seq<P>, hasFirstToken: P -> bool, analyze: P -> Statement<R>,
    resolve: R -> N)
    returns (result: Lineage<N>)
    ensures HookDecides(found) ==> result == Lineage(found.0, found.1, {}, {})
    ensures !HookDecides(found) ==>
              LineageOf(AnalyzedStatements(parsed, hasFirstToken, analyze), resolve, result)
    ensures result == ParseQueryTextSpec(found, AnalyzedStatements(parsed, hasFirstToken, analyze), resolve)
  {
    var renamed: set<(N, N)> := {};
    var dropped: set<N> := {};
    var source, target := found.0, found.1;
    if |source| > 0 || |target| > 0 {
      return Lineage(source, target, renamed, dropped);
    }
    var stmts := AnalyzedStatements(parsed, hasFirstToken, analyze);
    var i := 0;
    while i < |stmts|
      invariant 0 <= i <= |stmts|
      invariant Lineage(source, target, renamed, dropped) == Fold(stmts[..i], resolve)
    {
      var st := stmts[i];

      dropped := AddDropped(dropped, st.drop, resolve);
      renamed := AddRenamed(renamed, st.rename, resolve);

      // A later statement that also reads or writes is only logged.
      if source == {} {
        source := Image(st.read - st.intermediate, resolve);
      }
      if target == {} {
        target := Image(st.write, resolve);
      }

      assert stmts[..i + 1] == stmts[..i] + [st];
      FoldAppend(stmts[..i], st, resolve);
      i := i + 1;
    }
    assert stmts[..i] == stmts;
    FoldIsLineage(stmts, resolve);
    return Lineage(source, target, renamed, dropped);
  }

  // ---------------------------------------------------------------------------
  // The documented examples
  // ---------------------------------------------------------------------------

  /** `INSERT INTO target SELECT * FROM source`: one source, one target. */
  lemma InsertSelectExample(resolve: string -> string)
    ensures var r := Fold([Statement({"source"}, {"target"}, {}, {}, {})], resolve);
            r.source == {resolve("source")} && r.target == {resolve("target")}
            && r.renamed == {} && r.dropped == {}
  {
    var st := Statement({"source"}, {"target"}, {}, {}, {});
    assert [st][..0] == [];
    assert SourceRefs(st) == {"source"};
  }

  /** `WITH cte AS (SELECT * FROM orders) SELECT * FROM cte`: the CTE is not a source. */
  lemma CteExample()
    ensures var r := Fold([Statement({"cte", "orders"}, {}, {"cte"}, {}, {})], (t: string) => t);
            r.source == {"orders"} && "cte" !in r.source && r.target == {}
  {
    var st := Statement({"cte", "orders"}, {}, {"cte"}, {}, {});
    assert [st][..0] == [];
    assert SourceRefs(st) == {"orders"};
  }

  /** `DROP TABLE x` and `RENAME TABLE a TO b`, as two statements. */
  lemma DropAndRenameExample(resolve: string -> string)
    ensures var r := Fold([Statement({}, {}, {}, {"x"}, {}), Statement({}, {}, {}, {}, {("a", "b")})], resolve);
            r.dropped == {resolve("x")} && r.renamed == {(resolve("a"), resolve("b"))}
            && r.source == {} && r.target == {}
  {
    var s1, s2 := Statement({}, {}, {}, {"x"}, {}), Statement({}, {}, {}, {}, {("a", "b")});
    assert [s1, s2][..1] == [s1];
    assert [s1][..0] == [];
  }

  // ---------------------------------------------------------------------------
  // The query object
  // ---------------------------------------------------------------------------

  /** A value of the dictionary `to_dict` returns. */
  datatype DictValue<Ctx> =
    | Text(text: string)
    | Context(context: Ctx)   // stands for the context's own dictionary form
    | Null

  const RawQueryTextKey := "raw_query_text"
  const QueryContextKey := "query_context"
  const ProfileDatabaseNameKey := "profile_database_name"
  const ProfileSchemaNameKey := "profile_schema_name"
  const PlatformTypeKey := "platform_type"

  /** One raw query, its context, its profiling location and its lineage. */
  class Query<Ctx, N(==)> {
    const platformType: Option<string> := None

    var rawQueryText: string
    var queryContext: Ctx
    var profileDatabaseName: string
    var profileSchemaName: string

    var droppedTables: set<N>
    var renamedTables: set<(N, N)>
    var sourceTables: set<N>
    var targetTables: set<N>

    constructor (rawQueryText: string, queryContext: Ctx, profileDatabaseName: string, profileSchemaName: string)
      ensures this.rawQueryText == rawQueryText && this.queryContext == queryContext
      ensures this.profileDatabaseName == profileDatabaseName && this.profileSchemaName == profileSchemaName
      ensures droppedTables == {} && renamedTables == {} && sourceTables == {} && targetTables == {}
    {
      this.rawQueryText := rawQueryText;
      this.queryContext := queryContext;
      this.profileDatabaseName := profileDatabaseName;
      this.profileSchemaName := profileSchemaName;
      droppedTables := {};
      renamedTables := {};
      sourceTables := {};
      targetTables := {};
    }

    /**
     The static fields as a dictionary. The frame names only the four static
     fields (the platform type is a constant), so no lineage set can affect it.
     */
    function ToDict(): (d: map<string, DictValue<Ctx>>)
      reads this`rawQueryText, this`queryContext, this`profileDatabaseName, this`profileSchemaName
      ensures d.Keys == {RawQueryTextKey, QueryContextKey, ProfileDatabaseNameKey, ProfileSchemaNameKey, PlatformTypeKey}
      ensures d[RawQueryTextKey] == Text(rawQueryText) && d[QueryContextKey] == Context(queryContext)
      ensures d[ProfileDatabaseNameKey] == Text(profileDatabaseName)
      ensures d[ProfileSchemaNameKey] == Text(profileSchemaName)
      ensures d[PlatformTypeKey] == if platformType.Some? then Text(platformType.value) else Null
    {
      map[RawQueryTextKey := Text(rawQueryText),
          QueryContextKey := Context(queryContext),
          ProfileDatabaseNameKey := Text(profileDatabaseName),
          ProfileSchemaNameKey := Text(profileSchemaName),
          PlatformTypeKey := match platformType
                             case Some(p) => Text(p)
                             case None => Null]
    }
  }

  /** Two queries with the same static fields serialise alike, whatever their lineage sets hold. */
  lemma ToDictIgnoresLineage<Ctx, N>(a: Query<Ctx, N>, b: Query<Ctx, N>)
    requires a.rawQueryText == b.rawQueryText && a.queryContext == b.queryContext
    requires a.profileDatabaseName == b.profileDatabaseName && a.profileSchemaName == b.profileSchemaName
    ensures a.ToDict() == b.ToDict()
  {
  }
}
