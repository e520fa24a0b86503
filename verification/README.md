# A verified model of the equivalence fuzzer

The fuzzer builds, next to a base table, a second database object that must hold exactly the base
table's rows, and then runs the same queries against both. This project models the parts in which
that claim can go wrong and proves them right, or proves exactly when they are.

The six parts, and the files they are in:

1. **The equivalence compiler.** A tree of queries and relations denotes a bag of rows with NULL and
   three-valued logic (`values`, `enumerations`, `queries`, `graph`). `emit_equivalence` turns it into
   statements for a catalog of lazy views and stored tables (`engine`, `emission`). `compile` proves
   that the statements build what the tree denotes, although views are run again on every read and
   some nodes write to a table an earlier node created, and `dialects` that they use nothing the engine
   does not have. `rules` states the shapes a tree is made of; `selects`, `partitions`, `channels`,
   `joins` and `lowering` are the laws behind them; `meaning`, `recombine`, `matching` and `rewrite`
   prove that every tree made of these shapes denotes the base rows, and tie both halves into one theorem
   about what the installed name reads as. `builders` has what each builder makes of its children, and
   proves that every tree they can draw is made of these shapes. `forks`
   and `names` do the same for a round with several equivalents in one catalog. `constraints` models
   the requests that builders exchange, `ordering` the wrap around an ORDER BY, `native` three
   recombinations only DuckDB has, and `example` applies the theorem to a tree the builders draw, which
   marks, extends and prunes one table.
2. **The printer** (`printer`, `reading`, `roundtrip`, `standalone`): expressions to tokens, and a reader
   with any precedence table.
3. **The row oracle** (`oracle`, `compare`).
4. **The builder dispatcher** (`dispatcher`), with its counters, backtracking and budgets, and the
   complexity walk that sets a round's time (`schedule`).
5. **The CrateDB write fence** (`fence`).
6. **The round, its log and the totals** (`journal`, `round`, `report`).

`bags`, `expr` and `text` are shared vocabulary: bags with images and filters, the expression nodes, and
letter case.

## How the engines appear

Whatever an engine may choose freely is a parameter of the theorems, not a choice of the model. A
`World` lists the rows of a bag in some order on each occasion it is asked, groups them in some order,
and gives generated predicates some truth value; `ROW_NUMBER`, `FIRST_VALUE` and `ANY_VALUE` see that
order. A theorem about every world holds for every engine that obeys the SQL rules for bags (ISO/IEC
9075:1992, sections 7.5, 7.10 and 8.12). The emitters' differences are a `Style`: whether QUALIFY and
FULL OUTER JOIN are lowered, and whether CREATE TABLE AS is split in two. In the fence and the round,
the server and the worker fail whenever they like.

Where the code does less than one might expect, the model follows the code, and a lemma says exactly
when it is right:

- **The oracle's tolerance is not transitive.** When y is within tolerance of x and of z, which are not
  within tolerance of each other, then of x, y against y, z the exact pass takes y, and every order of the
  greedy pass reports a difference although the rows can be matched (`BridgeMisjudged`); on longer chains the
  answer depends on the order in which a counter iterates (`OrderDecides`). `ReliableExactly`: the
  verdict on a set of rows means what it says if and only if the tolerance is transitive on that set.
- **An ORDER BY repeats the select list outside** (`eqgen/equivalence/emitter.py:114-118`).
  `OrderByWrapExact`: a list that looks at one row is harmless on all tables if and only if repeating it
  changes no row, and a list with an aggregate if and only if there is no GROUP BY and the list gives back
  the one row; for a list with a window, or behind QUALIFY, the condition is about the rows returned from each
  table. A ROW_NUMBER over tied keys can move to another row (`WindowWrapFails`). There is a check on the items
  (`IdentityListAgrees`), which the builders' own lists meet.
- **Raw text is printed without brackets** (`eqgen/ir/render.py:87`, against `eqgen/ir/expr.py:112`).
  `RawExactly`: every engine reads it as one operand wherever it stands if and only if it stands alone, a
  check on the text that any one table of binding powers decides. Every place that builds raw text makes it a
  whole select item, where nothing stands next to it; `RawOperandSplits` shows what would happen to `a OR b`
  as an operand.
- **A log entry can be lost or changed** by a blank line, a comment or an early semicolon inside the query,
  or a line break that is not a line feed (`RecoveredExactly`). A message of several lines, such as an
  engine's error, can add entries to the log or change the one after it: `RemarkHarmless` and `VerdictHarmless`
  say when it does not, and `VerdictRecovered` when the verdict itself comes back.
- **LEFT OUTER in place of FULL OUTER** is right if and only if every right row has a match
  (`FullOuterLowering`).
- **Two kinds of INSERT that read are taken for ones that do not** (`ReadsSeen`), so nothing is refreshed
  before them: rows with a query among them, and a query inserted into a table whose unquoted name hides the
  word VALUES, as in `INSERT INTO myvalues SELECT ...`, where the pattern finds a table `my` (`MyValues`).

## Model

| member | source | states |
|---|---|---|
| Emission.WalkOrder | eqgen/equivalence/emitter.py:226-253 | the walk lists exactly the nodes the root reaches, each once, inputs before the nodes that read them |
| Emission.EmitEquivalence | eqgen/equivalence/emitter.py:226-253 | the mutating walk with its `seen` set emits every listed node's statements once, contiguously, in that order |
| Emission.Emitter.Walk | eqgen/equivalence/emitter.py:242-250 | one call appends the steps of what is not marked yet below a node and marks exactly that |
| Engine.RenderSources | eqgen/equivalence/emitter.py:100-168 | whatever lowering the emitter applies, the rendered query reads the same sources |
| Dialects.RenderReads | eqgen/dialects/mysql/emitter.py:63-103 | an engine without QUALIFY or FULL OUTER JOIN is given none, at any depth, and one that has them gets the query as it is; CROSS JOIN is the one join without a condition; every ORDER BY is kept, inside, and none is left outermost |
| Dialects.ScriptProper | eqgen/equivalence/emitter.py:171-253 | every statement emitted is of its node's kind and about its node's name or its child's: views stay queries, what is written to is a table, CREATE TABLE AS is split or not as the engine wants it; and every query in it is one the engine reads |
| Engine.NamedRel | eqgen/equivalence/ast.py:80-136 | a query that names its sources means what the query over nodes means, as long as the names are read as the nodes |
| Compile.ReadHolds | eqgen/equivalence/objects.py:63-91 | reading an entry of the catalog gives the content of the node it stands for, every time, through any depth of lazy views |
| Compile.QueryRuns | eqgen/equivalence/emitter.py:191-205 | a rendered query finds every name it mentions and returns what it means over the tree |
| Compile.Retarget | eqgen/equivalence/ast.py:719-810 | writing to a child's table leaves every other entry reading as before |
| Compile.StepView | eqgen/equivalence/emitter.py:203-205 | CREATE VIEW keeps the catalog in step with the tree |
| Compile.StepReinsert | eqgen/equivalence/ast.py:608-665 | CREATE, DELETE, INSERT from the base leave the rows the node denotes |
| Compile.StepUpdate | eqgen/equivalence/ast.py:668-716 | CREATE, UPDATE leave the rows the node denotes |
| Compile.StepExtras | eqgen/equivalence/ast.py:788-810 | an INSERT into a child's existing table keeps the catalog in step with the tree |
| Compile.StepPrune | eqgen/equivalence/ast.py:719-785 | a DELETE from a child's table and the view over it keep the catalog in step with the tree |
| Compile.StepNode | eqgen/equivalence/emitter.py:242-250 | so does every node's group of statements, whatever its kind |
| Compile.EmissionCorrect | eqgen/equivalence/emitter.py:226-253 | compiler correctness: from a catalog with the hidden base and fresh names, the emitted statements never hit a missing or duplicate name, and the root's name then reads, on every occasion, as the root's denotation; nothing old changes |
| Rewrite.MeaningPreserved | eqgen/equivalence/ast.py:140-810 | in a well built tree every node holds what its specification says about the base: the filtered rows, duplicates and column order included, or the same with a key, a tag or copies |
| Rewrite.QueryMeans | eqgen/equivalence/builders/base.py:57-229 | a query that follows a rule has one value, as built and as each emitter renders it, on every occasion it is read |
| Rewrite.NumberingMeans | eqgen/equivalence/builders/base.py:125-168 | ROW_NUMBER gives every row a key of its own, whichever order an engine numbers in |
| Rewrite.NodeMeans | eqgen/equivalence/ast.py:509-810 | the same for nodes with steps after their creation |
| Rewrite.ReinsertRestores | eqgen/equivalence/builders/dml_tables.py:78-108 | deleting by any predicate and reinserting by it from the base restores the bag, rows where it is NULL included |
| Rewrite.NoopRestores | eqgen/equivalence/builders/dml_tables.py:111-139 | assigning every column to itself changes no row, whatever the WHERE |
| Rewrite.ExtrasKeep | eqgen/equivalence/builders/expansion.py:189-225 | inserting throwaway or repeated rows keeps what the expansion promises |
| Rewrite.PruneMeans | eqgen/equivalence/ast.py:719-785 | what a prune leaves, projected, is the base |
| Rewrite.AllFaithful | eqgen/equivalence/emitter.py:100-223 | no rendering of a node of a well built tree changes its rows, and its views repeat themselves |
| Rewrite.RewriteCorrect | eqgen/equivalence/generator.py:126-168 | the main theorem: on every engine and in every style, the statements for a well built tree run and are ones the style's engines take, and the exposed name then reads as the base rows on which the accumulated filter is TRUE |
| Builders.ScanFollows | eqgen/equivalence/builders/selects.py:49-260 | what the builders of plain queries make of any children they ask for follows a rule: scans, CTEs, LATERAL, ordered and QUALIFY scans, added columns, grouping by a key |
| Builders.IdentityFollows | eqgen/equivalence/builders/window.py:66-106 | so do the column rewrites, whatever function, frame, predicates and columns are drawn |
| Builders.NumberFollows | eqgen/equivalence/builders/base.py:125-168 | so does the numbering of rows, which only tables are made of |
| Builders.SplitFollows | eqgen/equivalence/builders/partitioning.py:56-270 | so do the partitions by parity, by a generated predicate and by rank, and the set operations with an empty side |
| Builders.PairingFollows | eqgen/equivalence/builders/joins.py:53-256 | so do the joins, with the flag tables and column halves they make themselves |
| Builders.ChannelFollows | eqgen/equivalence/builders/expansion.py:128-457 | so do the expansions by tag and by key and the queries that undo them |
| Builders.ObjectFollows | eqgen/equivalence/builders/dml_tables.py:78-139 | so do the tables that are created, rewritten, extended and pruned |
| Builders.GeneratedWellBuilt | eqgen/equivalence/generator.py:126-168 | every tree the builders can draw, node by node and whatever they draw, is well built |
| Builders.GeneratedCorrect | eqgen/equivalence/generator.py:126-168 | so the main theorem holds of everything that is generated |
| Example.TreeHoldsBase | eqgen/equivalence/builders/expansion.py:189-242 | the theorem's conditions can be met: a tag expansion with extra rows, pruned again, is drawn by the builders and leaves `t` reading as the base |
| Recombine.ParityMeans | eqgen/equivalence/builders/partitioning.py:62-123 | even and odd branches under an outer filter add up to the filtered base |
| Meaning.ReduceMeans | eqgen/equivalence/builders/expansion.py:244-268 | filtering by the tag, or grouping by the key, gives back the base rows |
| Meaning.CollapseMeans | eqgen/equivalence/builders/expansion.py:319-457 | DISTINCT, windowed DISTINCT and QUALIFY over copies keep one row per key |
| Matching.KeyedJoin | eqgen/equivalence/builders/joins.py:104-256 | joining a keyed relation with one row per key, by any join type, finishes to one row per base row |
| Partitions.PiecesAreWhole | eqgen/equivalence/builders/partitioning.py:62-164 | the pieces of a UNION ALL add up to the filtered relation if and only if, on each row of it, the filters pass as often as the whole filter does |
| Partitions.ParitySplits | eqgen/ir/expr.py:232-249 | MOD = 0, and MOD <> 0 or NULL, split an integer column, negative and NULL values included, with a remainder that has the sign of the dividend |
| Partitions.TernarySplits | eqgen/equivalence/builders/partitioning.py:126-164 | p, NOT p and p IS NULL split every filtered relation, whatever p is |
| Partitions.ResiduesSplit | eqgen/equivalence/builders/partitioning.py:167-198 | the residues of a non-negative key split the relation |
| Partitions.NestedPartition | eqgen/equivalence/constraints.py:74-100 | any nesting of such splits, with filters ANDed on the way down, is the unsplit relation |
| Selects.DeterminedNeutral | eqgen/ir/expr.py:502-526 | ANDing an always-true condition or ORing an always-false one changes no row of any relation |
| Selects.DeterminedTrueHolds | eqgen/ir/expr.py:502-516 | p OR NOT p OR p IS NULL is TRUE on every row, not NULL |
| Selects.DeterminedFalseFails | eqgen/ir/expr.py:519-526 | p AND NOT p AND p IS NOT NULL is FALSE on every row, not NULL |
| Selects.IdentityValue | eqgen/equivalence/builders/window.py:66-106 | a column rewritten by a window over its own partition, or by a CASE with equal or unreachable branches, keeps its value |
| Selects.WindowConstant | eqgen/equivalence/builders/window.py:74-106 | MIN, MAX, FIRST_VALUE and LAST_VALUE over a partition on which the argument is constant give that value, NULL included |
| Values.ConstantExtremum | eqgen/ir/expr.py:266-287 | MIN and MAX of equal values are that value, NULL included |
| Channels.NumberSelect | eqgen/equivalence/builders/base.py:125-168 | however the rows are listed, numbering them gives distinct keys and drops nothing |
| Channels.CopiesAgain | eqgen/equivalence/builders/expansion.py:270-316 | writing rows again, any number of times, keeps the key channel |
| Channels.DistinctCollapse | eqgen/equivalence/builders/expansion.py:319-347 | SELECT DISTINCT over copies is one row per key, with plain or windowed columns |
| Channels.QualifyCollapse | eqgen/equivalence/builders/expansion.py:428-457 | QUALIFY ROW_NUMBER() = 1 per key is one row per key, whichever copy an engine numbers first |
| Channels.GroupCollapse | eqgen/equivalence/builders/expansion.py:349-381 | GROUP BY the key with MIN, MAX or ANY_VALUE restores the base bag, duplicate and all-NULL rows included |
| Channels.TagUnion | eqgen/equivalence/builders/expansion.py:156-187 | adding any bag of rows with a non-NULL tag other than the kept one keeps the tag channel |
| Channels.PruneRestores | eqgen/equivalence/ast.py:719-785 | DELETE WHERE tag <> keep and projection restore the base bag after any such additions |
| Channels.TagFilterRestores | eqgen/equivalence/builders/expansion.py:244-268 | so does WHERE tag = keep |
| Joins.FullOuterLowering | eqgen/dialects/mysql/emitter.py:91-103 | LEFT OUTER in place of FULL OUTER is the same bag if and only if every right row has a match |
| Joins.OneToOneJoin | eqgen/config/settings.py:61-71 | INNER, LEFT, RIGHT, FULL OUTER and filtered CROSS agree on a one-to-one complete join |
| Joins.OneToOneSemi | eqgen/equivalence/builders/joins.py:104-133 | a SEMI JOIN with one match each keeps the left side |
| Joins.LeftEmptyRows | eqgen/equivalence/builders/joins.py:60-101 | LEFT OUTER JOIN with an empty relation pads each left row once |
| Joins.CrossFilter | eqgen/equivalence/builders/joins.py:222-256 | CROSS JOIN with the condition in WHERE is INNER JOIN on the condition |
| Lowering.QualifyLowering | eqgen/dialects/mysql/emitter.py:66-89 | QUALIFY as an inner `eq_q` and an outer WHERE is the native QUALIFY, with DISTINCT, GROUP BY and windows over the whole bag |
| Ordering.OrderByWrap | eqgen/equivalence/builders/selects.py:221-235 | the wrap changes nothing when the columns are passed through, as the builder of ordered scans does |
| Ordering.OrderByWrapExact | eqgen/equivalence/emitter.py:114-118 | over all tables, whatever the clauses: a list with an aggregate is harmless if and only if there is no GROUP BY and it gives back the one row; a list that looks at one row, without QUALIFY, if and only if repeating it changes no row; any other list if and only if, from every table, reading it over the returned rows lists them again |
| Ordering.WrapPermutes | eqgen/equivalence/emitter.py:114-118 | table by table, with any clauses: a list that looks at one row is harmless exactly when it permutes the rows the query returns |
| Ordering.AggregateWrap | eqgen/equivalence/emitter.py:114-118 | table by table, with any clauses: a list with an aggregate is harmless exactly when the query returns one row and the list gives it back |
| Ordering.WindowWrapFails | eqgen/equivalence/emitter.py:114-118 | a numbering by a key that ties is changed by the wrap when an engine lists the tied rows in another order outside |
| Ordering.GroupedWrapFails | eqgen/equivalence/emitter.py:114-118 | a grouped list with an aggregate is changed on the empty table and on every table with other than one group to return |
| Ordering.IdentityListAgrees | eqgen/equivalence/emitter.py:114-118 | a check on the items: when each gives back the column it is named after, the wrap is harmless whatever DISTINCT, WHERE, GROUP BY and QUALIFY the query has |
| Ordering.OrderByWrapDoubles | eqgen/equivalence/emitter.py:114-118 | a select list that the wrap changes: the CASE comes back negated |
| Native.PositionalRebuilds | eqgen/dialects/duckdb/emitter.py:94-105 | POSITIONAL JOIN of two column halves, each sorted by a unique key on its own, rebuilds every row |
| Native.PositionalNeedsUnique | eqgen/dialects/duckdb/emitter.py:94-105 | with a repeated key two legal sorts swap the halves |
| Native.EmptyArmStops | eqgen/dialects/duckdb/emitter.py:107-117 | the recursive CTE with an arm that is empty stays at its anchor |
| Native.PivotIdentity | eqgen/dialects/duckdb/emitter.py:123-139 | packing the other columns, pivoting per primary key and unpacking is the identity, whichever row of a group an engine takes |
| Native.NativeMeans | eqgen/dialects/duckdb/emitter.py:94-139 | whatever an engine may answer to one of the three queries, as the builders put them together, is the base relation |
| Native.NativeReturns | eqgen/dialects/duckdb/emitter.py:94-139 | each of the three queries has an answer |
| Constraints.BuildSet | eqgen/builder/constraint_set.py:52-60 | merging requests fails exactly when two rewrites share a column; otherwise the merged filter passes the rows every requested filter passes, all rewrites are kept in order, and any other kind keeps its first request |
| Constraints.SharesExactly | eqgen/equivalence/constraints.py:149-153 | two rewrites share a column when some item of the one has the name of an item of the other |
| Constraints.KindExactly | eqgen/builder/constraint_set.py:52-60 | only requests of one class are merged |
| Constraints.NoClashMerged | eqgen/equivalence/constraints.py:149-153 | one more rewrite merges exactly when it shares no column with those before it |
| Constraints.StaysClashed | eqgen/builder/constraint_set.py:52-60 | a clash among the first requests stays a clash whatever follows |
| Forks.ReadGrown | eqgen/equivalence/generator.py:170-202 | adding objects changes what no existing object reads as |
| Forks.RoundCorrect | eqgen/equivalence/generator.py:170-202 | several forks installed one after another in one catalog: no statement fails and every exposed name reads as the base rows its root promises |
| Forks.MintedRoundOk | eqgen/equivalence/generator.py:183-202 | forks that take their names from the exposed ones and one shared generator meet the conditions of that theorem |
| Names.NumberedInjective | eqgen/equivalence/context.py:54-58 | `prefix_n` splits at its last underscore in one way, underscores in the prefix included |
| Names.DecimalReads | eqgen/equivalence/context.py:54-58 | the digits of a number read as that number |
| Names.NameGenerator.GenerateObjectName | eqgen/equivalence/context.py:54-58 | the name was never given out before and is the only one that becomes used |
| Names.NameGenerator.GenerateColumnName | eqgen/equivalence/context.py:60-66 | the same for synthesized columns, from the same counters |
| Names.ObjectNamer.Mint | eqgen/equivalence/context.py:81-82 | a fresh name of the namer's base and the given kind |
| Names.CountUp | eqgen/equivalence/context.py:54-58 | counting one prefix up uses up one name, and a new one |
| Names.MintForks | eqgen/equivalence/generator.py:183-202 | all names of all forks are different, and no object has the hidden or an exposed name |
| Names.ExposedNumber | eqgen/fuzz/database.py:416-431 | with several forks, fork i is exposed under the seed's name and the number i |
| Names.ExposedApart | eqgen/fuzz/database.py:411-431 | no exposed name is the hidden one or can ever be minted |
| Names.HiddenApart | eqgen/fuzz/database.py:411-413 | the hidden name can never be minted |
| RoundTrips.RoundTrip | eqgen/ir/render.py:99-207 | under any binding powers, a reader recovers exactly the printed node and stops where it ends |
| RoundTrips.PrintingInjective | eqgen/ir/render.py:99-207 | two structured nodes never share a text |
| RoundTrips.RawOperandSplits | eqgen/ir/render.py:87-146 | a raw operand without brackets is torn apart by its neighbour, and the same text as a generated predicate is not |
| Standalone.UnitExactly | eqgen/ir/render.py:134-146 | the same for one engine and text that does not begin with NOT |
| Standalone.StandsAnywhere | eqgen/ir/render.py:99-207 | whether text stands alone does not depend on the binding powers |
| Standalone.RawExactly | eqgen/ir/render.py:87-146 | raw text is read as one operand by every engine, wherever it stands, if and only if it stands alone under one table, any one: no leading NOT, brackets matched, and nothing left after an operand |
| Reading.TokensBalanced | eqgen/ir/render.py:99-207 | printed text closes every bracket it opens |
| Oracle.CompareMultisets | eqgen/fuzz/database.py:180-229 | the two mutating passes return what the orders of the keys determine, and it accounts for every row and leaves no pair that could still be matched |
| Oracle.ConsumeExact | eqgen/fuzz/database.py:193-201 | the exact pass takes the common part from both sides and nothing else |
| Oracle.VerdictSound | eqgen/fuzz/database.py:180-229 | matched and reported rows add up on both sides, `reconciled` counts exactly the unequal pairs, and `equal` comes with a bijection of equal or close rows |
| Oracle.HalfOfOptimal | eqgen/fuzz/database.py:193-223 | no matching along equal or close pairs covers more than twice the rows matched here |
| Oracle.SameBags | eqgen/fuzz/database.py:180-229 | a bag against itself is equal with `reconciled` 0 |
| Oracle.ExactForClasses | eqgen/fuzz/database.py:180-229 | when the tolerance is transitive on the rows compared, `equal` holds exactly when the totals of every class agree |
| Oracle.ReliableExactly | eqgen/fuzz/database.py:180-229 | on a set of rows, `equal` means that all rows can be matched if and only if the tolerance is transitive on the set |
| Oracle.BridgeMisjudged | eqgen/fuzz/database.py:193-223 | three rows, the middle one close to both others: every order reports a difference although all rows can be matched |
| Oracle.OrderDecides | eqgen/fuzz/database.py:128-223 | four numbers for which the passes report a difference or none, depending on the order of the keys |
| Oracle.ClosenessExactly | eqgen/fuzz/database.py:128-159 | two numbers are close when they are within the absolute tolerance, or within the relative one of either of them |
| Comparing.CompareOne | eqgen/fuzz/compare.py:139-181 | each error is exactly its own side's text and the known issue is the equivalent's; when both answered, the rows reported of each side are what is left of it when everything that agrees is taken away |
| Comparing.OneVerdict | eqgen/fuzz/compare.py:71-97 | a comparison falls under exactly one of the five verdicts if and only if a known issue comes with an error |
| Dispatcher.BuilderFactory.FilterBuilders | eqgen/builder/builder.py:203-261 | the eligible builders are those that make what is asked for and nothing banned, know every constraint, have those they need, and, unless they are leaves, have a level and both budgets left; none at the depth limit |
| Dispatcher.BuilderFactory.ActiveWeights | eqgen/builder/weighted_factory.py:128-139 | the lazily filled caches give the root its own weights and every other node the ordinary ones |
| Dispatcher.BuilderFactory.WeightedShuffle | eqgen/config/weighted.py:131-147 | the order holds eligible builders only, and every one with positive weight |
| Dispatcher.BuilderFactory.Attempt | eqgen/builder/context.py:75-100 | one builder's turn restores depth and exclusions however it ends, and `node_count` unless it succeeds, while `nodes_attempted` and `chosen` only grow |
| Dispatcher.BuilderFactory.Leave | eqgen/builder/context.py:75-100 | a turn commits if and only if it made a node that meets every constraint, and otherwise rolls `node_count` back |
| Dispatcher.BuilderFactory.Dispatch | eqgen/builder/builder.py:287-309 | a node comes from an eligible builder and meets the constraints, within the depth limit and under the node bound, and each node below it was made in a turn of its builder for a request it meets; declining means every eligible builder with positive weight had its turn; every turn was an eligible builder's |
| Dispatcher.BuilderFactory.RequestChild | eqgen/builder/context.py:110-124 | types banned for a request are banned in every turn below it, with those banned before, and the bans are restored |
| Dispatcher.Generate | eqgen/equivalence/generator.py:126-168 | over all draws, failures and rollbacks: every builder that had a turn was eligible for its request; a generation that succeeds has at most max_nodes + b * max_depth nodes, and each is counted in `chosen` |
| Dispatcher.GenerateForks | eqgen/equivalence/generator.py:170-202 | the builders of a round are exactly those of the nodes produced in it, fork by fork, failed attempts included, and cover the forks' trees |
| Schedule.Walk | eqgen/fuzz/schedule.py:67-77 | the stack walk sees exactly the reachable nodes; the depth is the length of some real path, and no reachable node is without a path within it |
| Schedule.MeasureComplexity | eqgen/fuzz/schedule.py:59-94 | every reachable node is counted once, some path has the reported depth, and the score is the largest of the three shares of their caps, or one when that is larger |
| Schedule.Seconds | eqgen/fuzz/schedule.py:114-118 | the budget is between the bounds, and the upper one when there is no score, a full one, or no scaling |
| Schedule.SecondsEven | eqgen/fuzz/schedule.py:114-118 | equal steps of the score are equal steps of the budget |
| Fence.BacktracksExactly | eqgen/dialects/cratedb/refresh.py:55-62 | the pattern for INSERT ... VALUES stops early inside a table's name if and only if an unquoted part of the name has VALUES, in any case, behind something and before its end or a dollar sign |
| Fence.KeyExactly | eqgen/dialects/cratedb/refresh.py:80-82 | two written names are one to the fence if and only if they differ in nothing but case outside quotes |
| Fence.ClassifyExact | eqgen/dialects/cratedb/refresh.py:85-114 | every statement is classified as what it is, with the table it writes and the new name, except that a query inserted into a table whose name hides VALUES is taken for rows: optional words, qualified and quoted names, letter case, column lists and bracketed queries included |
| Fence.ReadsSeen | eqgen/dialects/cratedb/refresh.py:42-62 | a statement that may read is classified as one if and only if it is neither an INSERT of rows with a query among them nor an INSERT of a query into a table whose name hides VALUES |
| Fence.MyValues | eqgen/dialects/cratedb/refresh.py:59-62 | `INSERT INTO myvalues SELECT` is such a statement, and so is one into `doc.myvalues`, `myvalues.t` or `myvalues$x` |
| Fence.FenceState.After | eqgen/dialects/cratedb/refresh.py:129-149 | what each statement changes: the known tables and views, and dirty, which gains what may have been written and loses what is renamed or dropped |
| Fence.Connection.RunFence | eqgen/dialects/cratedb/adapter.py:122-140 | before a statement that may read, every known table's writes become visible or the statement is not started |
| Fence.Connection.Execute | eqgen/dialects/cratedb/adapter.py:142-153 | a statement is classified from its text, started at most once, and with nothing invisible to it when it reads and is not one of the two misread kinds, which start with every pending write invisible; the invariant survives success and failure; as long as nothing fails, every table with unseen writes is dirty |
| Fence.ExecuteAll | eqgen/dialects/cratedb/adapter.py:122-153 | read-your-writes for every statement but the two misread kinds, over every run of statements with any failures, on a server that runs the statements and not the classifier's verdict |
| Journal.QueryJournal.Begin | eqgen/fuzz/journal.py:77-79 | the normalised query with one semicolon is appended |
| Journal.NormalisedExactly | eqgen/fuzz/journal.py:82-84 | what is dropped from the end of a query is its trailing whitespace and the semicolons before it, and nothing else |
| Journal.QueryJournal.Annotate | eqgen/fuzz/journal.py:81-87 | a verdict or a note is appended as an annotation |
| Journal.QueryJournal.Record | eqgen/fuzz/journal.py:89-102 | a title and the block's lines are appended, each commented out |
| Journal.RecordComments | eqgen/fuzz/journal.py:89-102 | nothing in a block can be taken for a query, whatever breaks its lines |
| Journal.ParseJournal | eqgen/fuzz/journal.py:128-149 | the parser's loop computes the entries of the text's lines |
| Journal.EndsExactly | eqgen/fuzz/journal.py:144-146 | a line ends an entry when a semicolon is its last character but for whitespace |
| Journal.RecoverCut | eqgen/fuzz/journal.py:128-149 | a log cut after any line of the query phase parses to the queries so far with the verdicts written so far |
| Journal.RecoverAll | eqgen/fuzz/journal.py:128-149 | the whole log gives every query with its verdict |
| Journal.CrashPoint | eqgen/fuzz/journal.py:128-149 | a log that ends right after a query was begun names that query last, without a verdict |
| Journal.CutPrefix | eqgen/fuzz/journal.py:128-149 | all entries of a cut log but the last are complete, and the last is made of the first lines of its query |
| Journal.RecoveredExactly | eqgen/fuzz/journal.py:77-149 | a begun query comes back as itself if and only if its lines end in line feeds and none is blank, a comment, or ended early |
| Journal.RemarkHarmless | eqgen/fuzz/journal.py:85-87 | in a round without queries a remark leaves no entry behind if and only if its lines after the first are blank or comments |
| Journal.VerdictHarmless | eqgen/fuzz/compare.py:100-117 | a verdict of several lines, such as an engine's error, leaves the queries of the log as they are if and only if its lines after the first are blank or comments |
| Journal.VerdictRecovered | eqgen/fuzz/journal.py:81-149 | a verdict comes back as itself, with its query and those before it, if and only if it is on one line |
| Rounds.OneQuery | eqgen/fuzz/round.py:365-385 | a query is the last thing in the log when the engine gets it; its verdict follows, or the word of a hang or of a death with how the worker ended |
| Rounds.QueryLoop | eqgen/fuzz/round.py:353-385 | the results are the worker's answers to the first queries in order, each telling what the two sides did; a reply that is no answer is the last, blamed on the next query and noted as the hang or the death it was; the loop stops at the first query drawn after the deadline, and only then |
| Rounds.RunRound | eqgen/fuzz/round.py:191-407 | whatever the generator and the worker do, the outcome is what the replies say, in the setup too, and the log holds the preamble, or the setup's failure, and then the queries attempted |
| Rounds.PreambleComments | eqgen/fuzz/round.py:246-351 | what is written before the first query cannot be taken for one |
| Rounds.FailedSetupReplays | eqgen/fuzz/round.py:296-335 | the same for the notes of a round that failed in its setup |
| Rounds.RoundReplays | eqgen/fuzz/round.py:353-407 | the log of a round, cut anywhere in its query phase, replays the queries in order with the verdicts of their answers |
| Rounds.RoundRecovered | eqgen/fuzz/round.py:353-407 | the log of a finished round has one entry per attempted query |
| Reports.HangIsNoise | eqgen/fuzz/report.py:125-130 | every hang the parent words is taken for noise, in the setup too, whatever the exit was |
| Reports.DeathIsNoise | eqgen/fuzz/report.py:125-130 | a worker that ended is taken for noise if and only if SIGKILL ended it, in either phase |
| Reports.CrashTold | eqgen/fuzz/report.py:133-174 | from the worker's end to the report: the query it had, or the setup, becomes a crash finding with the note of its end if and only if it died other than by SIGKILL |
| Reports.SuspectReported | eqgen/fuzz/report.py:188-202 | a query the base answered is reported when the equivalent failed without a known cause or its rows do not pair off, in the order of the stream, with that error or with the rows left of each side |
| Reports.ReportedSuspect | eqgen/fuzz/report.py:188-202 | and nothing else is reported |
| Reports.ResultsSplit | eqgen/fuzz/report.py:133-202 | results split into passes, skips and reports without loss |
| Reports.FuzzReport.RecordRound | eqgen/fuzz/report.py:133-202 | one round keeps `passed + skipped + findings = queries_run + crash events` and `rounds + discarded = calls`, and says which findings it adds |
| Reports.FuzzReport.RecordAll | eqgen/fuzz/report.py:133-202 | so does any sequence of rounds |

## Left out

- Drawing a tree: what a builder draws at random is a parameter of what it makes, weights and probabilities are not modelled, and which columns have a type a rewrite can use is drawn too. That a table written to after its creation has no other reader is a condition of the theorem on trees.
- Types, casts and collations: a value is an integer, a text, a truth value, a number or NULL, and every column has one type throughout.
- Value codecs and other engine functions: whether a codec is the identity is up to the engine.
- Dialect objects other than the three DuckDB queries: indexes, shards, projections, partitions, merges, domains, attached databases and macros.
- The ClickHouse and CrateDB create, fill and expose sequences, except that CREATE TABLE AS may be split into CREATE and INSERT.
- Temporary, unlogged and materialized objects: they are views or tables here, a materialized view being a table that is filled once.
- IEEE floating point: closeness is any relation where that is possible, and otherwise the two tolerances over real numbers, without infinities and NaN.
- Decoding rows: `_freeze` and `canonical_row` make rows comparable before the oracle sees them.
- Debug information, deadlines and seeds in the dispatcher: a deadline is one more exception a builder may raise.
- Reading SQL text into tokens: the printer, its reader and the fence's classifier work on tokens, so comments inside a statement, and quoting other than of the names the fence reads, are not covered.
- Processes, pipes and files: the worker is a source of arbitrary answers, hangs and exits; the log is a text that is cut after some line, not inside one.
- The fence assumes that a failed or unrecognised statement writes only to tables the connection knows, that views are not renamed, and that a table is always named with the same qualification and the same quoting, as the emitted statements do.
- Fence.ExecuteAll: promises nothing for the two kinds of INSERT the classifier misreads, a query among rows that are spelled out and a query inserted into a table whose name hides VALUES.
- Quoted names with a dot in them, column names with a bracket in them, and space around the dot of a qualified name: the fence's statements have none.
- Raw text of the dialects: this reader knows no function calls but the aggregates and windows, no subscripts and no casts but typed NULL, so it does not decide for each dialect's raw text whether it stands alone.
- Ordering.OrderByWrapExact: for a list with a window and no aggregate, and for QUALIFY, the condition is still about each table's returned rows; IdentityListAgrees is the check on the text there.
- Putting the DuckDB recombinations under the theorem about whole trees: they are proved one query at a time.
- A round without a log: the same loop with nothing written.
- Plan fingerprints, the tallies of tolerated rows and of known issues by label, and the texts of `describe_shape` and `render_tree`.
- The base side's fork copies: `CREATE TABLE t0 AS SELECT * FROM t` needs no theorem beyond reading a stored table.
- Clusters, drivers, downloads, coverage campaigns and the command line.
- Partitions.ResiduesSplit: is about keys that are numbered from one by ROW_NUMBER, so it asks for non-negative values; a negative key would fall in none of the residues.
