# CREATE VIEW executor of pg-mem, modelled in Dafny

This project models `CreateView`, the executor pg-mem (an in-memory
PostgreSQL emulator) uses for `CREATE [OR REPLACE] VIEW name [(columns)] AS query`.
The executor works in two phases:

- **Bind** is the constructor. It resolves the target schema and looks up
  the relation already registered under the name. It sets the drop flag
  (`orReplace` and an existing relation) and compiles the query. When a
  column list is given, it rejects a list longer than the query's output
  with SQLSTATE `42601`, and otherwise re-projects the plan so that each
  listed alias renames its column. It then builds the unregistered view
  definition. Bind changes no database state.
- **Execute** performs four steps, each on the handle the previous step
  produced:
  1. fully commits the given transaction, because schema changes cannot be rolled back;
  2. drops the replaced relation against the committed handle, when it has to;
  3. registers the definition;
  4. forks the committed handle.

  It then returns a `CREATE` result that carries the forked handle.

Files and modules:

- `wrappers.dfy` (`Wrappers`): `Option` and `Result`. A thrown `QueryError` is a `Failure`.
- `names.dfy` (`Names`): schemas, relations, qualified names, `QueryError`,
  and the resolver collaborators (`getThisOrSiblingFor`, `getObject`,
  `asView`), as function-valued fields. Schema resolution and `asView` may
  fail with any error; `getObject` is total, because the source calls it
  with `nullIfNotFound`.
- `definitions.dfy` (`Definitions`): query plans as values, the projection
  items that `select` takes, the column re-projection, and view definitions.
- `transactions.dfy` (`Transactions`): transaction handles as ids, the log
  of events an execution performs, and the protocol those events must
  follow, written as a phase machine (`Step`, `Run`). Lemmas characterise
  every reachable phase. The `Database` class issues fresh handles and
  holds the registered definitions and the dropped relations.
- `create_view.dfy` (`CreateViews`): the statement record, the bind phase
  as a function (`Bind`), and the `CreateView` class. The class has the
  source's fields, a factory `New` that plays the constructor's role, and
  `Execute`.

A Dafny constructor cannot fail. So the source's throwing constructor is
`CreateView.New`: it computes the same values step by step in the same order
and allocates the executor only when binding succeeds. `New` has no
`modifies` clause and takes no database, so it cannot change any schema state.

`Execute` is specified against the phase machine. The events it appends to
the database's ghost log form a run that ends in `Done(committed, forked)`,
or in `Failed(committed)` when the drop fails. `DoneRuns` and `FailedRuns`
say which event sequences those are. `CompletedRunProperties` and
`FailedRunProperties` derive from them:
- the commit comes first;
- a drop happens only against the committed handle, and exactly when there is something to replace;
- exactly one registration happens;
- the committed handle is forked last.

Two points about the source:
- The source does not check that a view's column names are unique, and
  neither does the model.
- The drop decision uses the object returned by `asView(getObject(...))`.
  `asView` is uninterpreted, so no check on the existing relation's kind is
  asserted.

## Model

| member | source | states |
|---|---|---|
| `Definitions.Reproject` | src/execution/schema-amends/create-view.ts:29-38 | one projection item per column of the query, in order; item i reads column i; it is output under the alias at position i when that alias is present and non-empty, and under the column's own id otherwise |
| `Definitions.ReprojectedColumns` | src/execution/schema-amends/create-view.ts:29-38 | the re-projected plan has exactly as many columns as the original; a position with a non-empty alias takes it; positions with no or an empty alias, and every position at or beyond the end of the list, keep the original id |
| `Definitions.ReprojectKeepsNames` | src/execution/schema-amends/create-view.ts:29-38 | re-projection leaves the column names unchanged if and only if every alias within range is absent, empty or equal to its column's id |
| `CreateViews.Bind` | src/execution/schema-amends/create-view.ts:15-42 | errors of schema resolution, of the existing-object lookup and of the compiler propagate in that order; once all three succeed, binding fails exactly when a non-empty column list is longer than the query's columns, and then with code 42601; on success the drop flag equals orReplace and an existing relation, the definition lives in the resolved schema under the statement's name, its plan is the compiled plan itself without a column list and its re-projection with one, and it has as many columns as the compiled plan |
| `CreateViews.BindDropTarget` | src/execution/schema-amends/create-view.ts:20 | the relation execution will drop is the existing one exactly when OR REPLACE was asked for |
| `CreateViews.NoColumnListExample` | src/execution/schema-amends/create-view.ts:25 | without a column list, a view over `SELECT a, b` has columns a, b |
| `CreateViews.OneAliasExample` | src/execution/schema-amends/create-view.ts:29-38 | with column list (x), a view over `SELECT a, b` has columns x, b |
| `CreateViews.TooManyNamesExample` | src/execution/schema-amends/create-view.ts:26-27 | with three column names over a two-column query, binding fails with the 42601 error |
| `CreateViews.CreateView.constructor` | src/execution/schema-amends/create-view.ts:16-41 | the executor holds the statement and the bound schema, existing relation, drop flag and definition it is given |
| `CreateViews.CreateView.New` | src/execution/schema-amends/create-view.ts:15-42 | computes exactly `Bind`: on failure it returns Bind's error; on success it returns a fresh executor whose fields are Bind's decisions |
| `CreateViews.CreateView.Execute` | src/execution/schema-amends/create-view.ts:44-60 | the appended events are a protocol run ending in Done(committed, forked) on success or Failed(committed) when the drop fails; success returns tag CREATE and a handle different from the input, adds the definition once and drops the target only when `existing` and `drop` both hold; a failed drop returns its error with nothing registered and no fork |
| `Transactions.CommittedRuns` | src/execution/schema-amends/create-view.ts:47 | the runs that reach Committed(c) are exactly the single commit of the input handle into a new handle c |
| `Transactions.ReplacedRuns` | src/execution/schema-amends/create-view.ts:47-52 | the runs that reach Replaced(c) are exactly commit followed by a successful drop of the target against c, and exist only when there is a target |
| `Transactions.FailedRuns` | src/execution/schema-amends/create-view.ts:47-52 | the runs that reach Failed(c) are exactly commit followed by a failed drop of the target against c |
| `Transactions.RegisteredRuns` | src/execution/schema-amends/create-view.ts:47-55 | the runs that reach Registered(c) are exactly commit, the drop when there is a target, then registration of the definition |
| `Transactions.DoneRuns` | src/execution/schema-amends/create-view.ts:47-58 | the runs that reach Done(c, f) are exactly the completed trace, commit, optional drop, register, fork of c into f, with c new and f distinct from c and from the input |
| `Transactions.CompletedRunProperties` | src/execution/schema-amends/create-view.ts:47-59 | a completed execution commits first and only once; it drops only the target, only against the committed handle, exactly when there is a target, and before registering; it registers the definition exactly once; it ends by forking the committed handle into a handle distinct from the input and the committed one |
| `Transactions.FailedRunProperties` | src/execution/schema-amends/create-view.ts:47-52 | an execution whose drop failed committed the input and attempted only the drop against the committed handle; it neither registered nor forked |
| `Transactions.RegistrationsAppend` | src/execution/schema-amends/create-view.ts:55 | proof helper for `CompletedRunProperties`: the registration count of two event sequences put together is the sum of their counts |
| `Transactions.Database.FullCommit` | src/execution/schema-amends/create-view.ts:47 | returns a handle never issued before and logs the commit; nothing else changes |
| `Transactions.Database.Drop` | src/execution/schema-amends/create-view.ts:51 | fails with the relation's recorded error, or records it as dropped; logs the attempt and its outcome |
| `Transactions.Database.Register` | src/execution/schema-amends/create-view.ts:55 | appends the definition to the registered views and logs it |
| `Transactions.Database.Fork` | src/execution/schema-amends/create-view.ts:58 | returns a handle never issued before and logs the fork; nothing else changes |

## Left out

- Parsing and the AST types of `pgsql-ast-parser`: the statement is a record with a name, the OR REPLACE flag, an optional list of optional names, and an opaque query.
- `buildSelect` and the query compiler: a function `Query -> Result<Plan, QueryError>` with no assumed behaviour. A plan exposes only its column ids. `select` builds a projection node whose columns are the items' output names; how a plan is evaluated is not modelled.
- Column ids are taken to be present. The source's `x.id!` asserts this and does not check it.
- `getThisOrSiblingFor`, `getObject` and `asView` are uninterpreted functions. `getThisOrSiblingFor` and `asView` may fail or return anything, so no kind check on the existing relation is asserted. `getObject` is taken to be total, since it is called with `nullIfNotFound`.
- `ignore(p.orReplace)` is a no-op marker. It has no counterpart.
- Transaction and MVCC internals: a handle is an id, and `fullCommit` and `fork` return ids never issued before. What a handle can observe, including that a handle from before execution does not see the new view, is not modelled.
- `Database.Register`: it cannot fail in this model. `View.register` internals are not part of this model, including its name-collision check, so a second CREATE VIEW with the same name succeeds here.
- `Database.Drop`: what dropping does to the schema is not modelled. It is an event whose failure is decided by the database's table of drop errors.
- `CreateViews.CreateView.Execute`: requires the input handle to have been issued by the database. This stands in for the source's guarantee that it is handed a live transaction.
- `resultNoData` formatting: only the `CREATE` tag and the returned handle are kept. The statement's text in the result is not modelled.
