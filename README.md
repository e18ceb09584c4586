# Query lineage reduction

A model of the `Query` adapter in `lineage/query.py`. It extracts table-level
lineage from one raw SQL query: the source tables a query reads, the target
tables it writes, the (old, new) pairs of tables it renames, and the tables it
drops.

The adapter works in two stages.

1. A platform-specific hook runs first. If it finds any source or target
   tables, its pair of sets is the answer.
2. Otherwise the adapter goes over the analyzed statements of the query, in
   order. It collects every dropped table and every rename pair. It takes the
   sources from the first statement that reads a table that is not one of its
   own CTEs. It takes the targets from the first statement that writes a table.
   A later statement that conflicts with these is only logged.

The SQL tokenizer, the lineage analyzer and the table-name resolver are
external collaborators. They enter the model as inputs:

- The tokenizer's output is a sequence of parsed statements `P`.
  `hasFirstToken` says whether a statement keeps a first token once comments
  and white space are skipped. `analyze` maps a parsed statement to its
  `Statement` record: `read`, `write`, `intermediate`, `drop` and `rename`.
- The resolver is an arbitrary function `resolve: R -> N` from a table
  reference to a qualified name. The model never assumes it is injective.
- The platform hook enters as the pair of sets it returned.

Everything is in one module, `LineageQuery`, in `lineage_query.dfy`:

- `ParseQueryText` is the imperative routine. Its outer loop goes over the
  statements. `AddDropped` and `AddRenamed` are its two inner loops, one
  table or pair at a time. The method is proved equal to a recursive left
  fold, `Fold`, built from one `Step` per statement.
- `LineageOf` is a reference definition of the four results that does not
  mention the fold. It is given field by field: `DroppedOf`, `RenamedOf`,
  `SourceOf` and `TargetOf`. Lemmas prove that the fold meets it, and that
  it allows at most one result.
- `Query` is a class with the constructor's fields. Its `ToDict` has a
  `reads` frame that names only the static fields.

## Model

| member | source | states |
|---|---|---|
| `LineageQuery.ParseQueryText` | lineage/query.py:45-79 | If the hook found a source or a target, the result is the hook's pair with no renames and no drops. Otherwise the result meets the reference definition `LineageOf` over the analyzed statements. The result also equals the fold specification. |
| `LineageQuery.AddDropped` | lineage/query.py:56-58 | The loop adds exactly the resolved name of every dropped reference to the accumulated set. |
| `LineageQuery.AddRenamed` | lineage/query.py:60-64 | The loop adds exactly the resolved (old, new) pair of every rename pair to the accumulated set. |
| `LineageQuery.Image` | lineage/query.py:69-70 | Each reference's resolved name is in the result, and each name in the result comes from some reference. The result is empty exactly when the input is. |
| `LineageQuery.RenameImage` | lineage/query.py:61-64 | Each rename pair's resolved pair is in the result, and each pair in the result comes from some rename pair. |
| `LineageQuery.AnalyzedStatements` | lineage/query.py:32-36 | The filter returns no more statements than were parsed. When every parsed statement has a first token, it returns one per parsed statement. |
| `LineageQuery.AnalyzedStatementsMembers` | lineage/query.py:34-35 | Every parsed statement with a first token is analyzed. Every analyzed statement comes from a parsed statement with a first token. |
| `LineageQuery.AnalyzedStatementsConcat` | lineage/query.py:34-35 | The filter distributes over concatenation, so it keeps the statements' order. |
| `LineageQuery.DefaultPlatformHook` | lineage/query.py:41-43 | The base class's hook returns no sources and no targets. |
| `LineageQuery.DefaultHookFolds` | lineage/query.py:42-54 | With the base class's hook, the result is always the fold's result, which meets `LineageOf`. |
| `LineageQuery.HookShortCircuits` | lineage/query.py:50-52 | A hook result with a non-empty source set or target set is returned unchanged, with empty renames and drops, whatever the statements are. |
| `LineageQuery.FoldDropped` | lineage/query.py:55-58 | The dropped tables are exactly the resolved drop references of all statements. |
| `LineageQuery.FoldRenamed` | lineage/query.py:60-64 | The renamed pairs are exactly the resolved (old, new) pairs of all statements. |
| `LineageQuery.FoldSource` | lineage/query.py:66-72 | The sources are the resolved `read - intermediate` of the first statement where that difference is non-empty. They are empty when there is no such statement. |
| `LineageQuery.FoldTarget` | lineage/query.py:74-77 | The targets are the resolved writes of the first statement that writes. They are empty when no statement writes. |
| `LineageQuery.FoldIsLineage` | lineage/query.py:55-79 | The fold meets all four parts of the reference definition `LineageOf`. |
| `LineageQuery.FoldIsTheOnlyLineage` | lineage/query.py:55-79 | A result meets `LineageOf` if and only if it is the fold's result, so the reference definition fixes the result completely. |
| `LineageQuery.FoldFirstWins` | lineage/query.py:68-77 | Once the sources are non-empty, later statements never change them, whether they conflict (the logged branch) or not. The same holds for the targets. Drops and renames only grow. |
| `LineageQuery.CteNeverSource` | lineage/query.py:66-70 | Every source name is the resolved name of some table that the first source statement reads and does not mark as intermediate (a CTE). |
| `LineageQuery.InsertSelectExample` | lineage/query.py:66-77 | `INSERT INTO target SELECT * FROM source` gives the sources {source} and the targets {target}, with no renames and no drops. |
| `LineageQuery.CteExample` | lineage/query.py:66-70 | A query that reads a CTE built from `orders` has the sources {orders}, and the CTE is not among them. |
| `LineageQuery.DropAndRenameExample` | lineage/query.py:55-64 | `DROP TABLE x` adds x to the dropped tables. `RENAME TABLE a TO b` adds (a, b) to the renamed pairs. |
| `LineageQuery.Query.constructor` | lineage/query.py:13-22 | The query keeps its text, context and profile names. Its dropped, renamed, source and target sets all start empty. |
| `LineageQuery.Query.ToDict` | lineage/query.py:24-29 | The keys are exactly `raw_query_text`, `query_context`, `profile_database_name`, `profile_schema_name` and `platform_type`, each mapped to the matching static field. The `reads` frame excludes every lineage set. |
| `LineageQuery.ToDictIgnoresLineage` | lineage/query.py:24-29 | Two queries with the same static fields give the same dictionary, whatever their lineage sets hold. |

## Left out

- The tokenizer (`sqlparse.parse` after `strip()`) is not modelled. Its output is the input sequence `parsed`.
- The comment and white-space test behind `token_first` is not modelled. It enters as the predicate `hasFirstToken`.
- The lineage analyzer is external. `analyze` is a given function, and how it infers the five sets is not modelled.
- `TableResolver.name_qualification` is external. It is an arbitrary function `resolve`, and it is not assumed injective.
- The platform hook is modelled by the pair of sets it returns. Its arguments (the resolver and the raw text) are not passed to it, because the base class ignores them. Dialect-specific subclass overrides are not modelled.
- The two `logger.debug` calls for a conflicting later statement are not modelled. They change no state, so the model has no branch for them.
- `get_context_as_html` is not modelled; it only delegates to the context.
- `QueryContext.to_dict` is not modelled. The dictionary holds the context value itself (`Context(queryContext)`) where the source holds the context's own dictionary form.
- The stubs `_get_platform_type` and `parse` have no behaviour, so they are not modelled. No operation of the base class assigns the lineage sets of a `Query` after construction.
- Python sets iterate in an unspecified order. The inner loops pick any remaining element, and their results do not depend on the order.
