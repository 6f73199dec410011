/** The CREATE VIEW executor: the bind phase, which validates the statement
    and builds the unregistered definition without touching the database,
    and the execute phase, which commits, drops the replaced relation when
    asked to, registers the definition and forks a new transaction. */
module CreateViews {
  import opened Wrappers
  import opened Names
  import opened Definitions
  import opened Transactions

  /** A parsed CREATE [OR REPLACE] VIEW name [(columns)] AS query. Each entry
      of the column list may lack a name. */
  datatype CreateViewStatement = CreateViewStatement(
    name: QualifiedName,
    orReplace: bool,
    columnNames: Option<seq<Option<string>>>,
    query: Query)

  /** The collaborators of the bind phase: name resolution and the query
      compiler (`buildSelect`), which may fail. */
  datatype Env = Env(resolver: Resolver, buildSelect: Query -> Result<Plan, QueryError>)

  /** What the bind phase decides: the target schema, the relation that
      already exists under the name, whether to drop it, and the definition
      to register. */
  datatype Binding = Binding(schema: SchemaId, existing: Option<ObjectRef>, drop: bool, toRegister: ViewDef)

  /** The result of executing a statement: its command tag and the
      transaction handle later statements must use. */
  datatype StatementResult = StatementResult(command: string, transaction: Handle)

  /** The error raised when the column list is longer than the query's
      output (SQLSTATE 42601, syntax error). */
  const TooManyColumnNames: QueryError :=
    QueryError("CREATE VIEW specifies more column names than columns", Some("42601"))

  /** Whether the statement gives a column list at all: an absent and an
      empty list are treated alike. */
  predicate HasColumnList(p: CreateViewStatement) {
    p.columnNames.Some? && |p.columnNames.value| > 0
  }

  /** The schema the view is created in, or the error resolving it raises. */
  function TargetSchema(env: Env, current: SchemaId, p: CreateViewStatement): Result<SchemaId, QueryError> {
    env.resolver.getThisOrSiblingFor(current, p.name)
  }

  /** The relation already registered under the name in `schema`, as asView returns it. */
  function Existing(env: Env, schema: SchemaId, p: CreateViewStatement): Result<Option<ObjectRef>, QueryError> {
    env.resolver.asView(env.resolver.getObject(schema, p.name))
  }

  /** The two lookups of the bind phase, in order: the target schema, then
      the relation already registered under the name there. */
  function Lookup(env: Env, current: SchemaId, p: CreateViewStatement): Result<(SchemaId, Option<ObjectRef>), QueryError> {
    match TargetSchema(env, current, p)
    case Failure(e) => Failure(e)
    case Success(schema) =>
      match Existing(env, schema, p)
      case Failure(e) => Failure(e)
      case Success(existing) => Success((schema, existing))
  }

  /** The bind phase of CREATE VIEW, run in schema `current`. */
  function Bind(env: Env, current: SchemaId, p: CreateViewStatement): (r: Result<Binding, QueryError>)
    // errors of schema resolution, of the lookup and of the query compiler propagate, in that order
    ensures TargetSchema(env, current, p).Failure? ==> r == Failure(TargetSchema(env, current, p).error)
    ensures TargetSchema(env, current, p).Success? && Existing(env, TargetSchema(env, current, p).value, p).Failure?
      ==> r == Failure(Existing(env, TargetSchema(env, current, p).value, p).error)
    ensures Lookup(env, current, p).Success? && env.buildSelect(p.query).Failure?
      ==> r == Failure(env.buildSelect(p.query).error)
    // once all three succeed, binding fails exactly when the column list is too long, with 42601
    ensures Lookup(env, current, p).Success? && env.buildSelect(p.query).Success? ==>
      (r.Failure? <==> HasColumnList(p) && |p.columnNames.value| > |Columns(env.buildSelect(p.query).value)|)
    ensures Lookup(env, current, p).Success? && env.buildSelect(p.query).Success? && r.Failure?
      ==> r.error == TooManyColumnNames && r.error.code == Some("42601")
    // the decisions made on success
    ensures r.Success? ==>
      Lookup(env, current, p) == Success((r.value.schema, r.value.existing)) && env.buildSelect(p.query).Success?
    ensures r.Success? ==> r.value.drop == (p.orReplace && r.value.existing.Some?)
    ensures r.Success? ==> r.value.toRegister.schema == r.value.schema && r.value.toRegister.name == p.name.name
    // the definition: the compiled plan itself without a column list, its re-projection with one
    ensures r.Success? && !HasColumnList(p) ==> r.value.toRegister.plan == env.buildSelect(p.query).value
    ensures r.Success? && HasColumnList(p) ==>
      var built := env.buildSelect(p.query).value;
      r.value.toRegister.plan == Select(built, Reproject(Columns(built), p.columnNames.value))
    ensures r.Success? ==> |Columns(r.value.toRegister.plan)| == |Columns(env.buildSelect(p.query).value)|
  {
    match Lookup(env, current, p)
    case Failure(e) => Failure(e)
    case Success((schema, existing)) =>
      var drop := p.orReplace && existing.Some?;
      match env.buildSelect(p.query)
      case Failure(e) => Failure(e)
      case Success(built) =>
        if HasColumnList(p) && |p.columnNames.value| > |Columns(built)| then
          Failure(TooManyColumnNames)
        else
          var plan := if HasColumnList(p) then Select(built, Reproject(Columns(built), p.columnNames.value)) else built;
          Success(Binding(schema, existing, drop, ViewDef(schema, p.name.name, plan)))
  }

  /** The relation that execution drops, as decided at bind time: the
      existing one, when there is one and the drop flag is set. */
  function DropTargetOf(b: Binding): Option<ObjectRef> {
    if b.existing.Some? && b.drop then b.existing else None
  }

  /** Execution drops exactly when OR REPLACE was asked for and a relation
      of any kind exists under the name. */
  lemma BindDropTarget(env: Env, current: SchemaId, p: CreateViewStatement)
    requires Bind(env, current, p).Success?
    ensures var b := Bind(env, current, p).value;
      DropTargetOf(b) == (if p.orReplace then b.existing else None)
  {
  }

  /** `CREATE VIEW v AS SELECT a, b FROM t`: the view's columns are a, b. */
  lemma NoColumnListExample(env: Env, current: SchemaId, p: CreateViewStatement, built: Plan)
    requires Lookup(env, current, p).Success? && env.buildSelect(p.query) == Success(built)
    requires Columns(built) == ["a", "b"] && p.columnNames.None?
    ensures Bind(env, current, p).Success?
    ensures Columns(Bind(env, current, p).value.toRegister.plan) == ["a", "b"]
  {
  }

  /** `CREATE VIEW v(x) AS SELECT a, b FROM t`: the view's columns are x, b. */
  lemma OneAliasExample(env: Env, current: SchemaId, p: CreateViewStatement, built: Plan)
    requires Lookup(env, current, p).Success? && env.buildSelect(p.query) == Success(built)
    requires Columns(built) == ["a", "b"] && p.columnNames == Some([Some("x")])
    ensures Bind(env, current, p).Success?
    ensures Columns(Bind(env, current, p).value.toRegister.plan) == ["x", "b"]
  {
    var r := Bind(env, current, p).value.toRegister.plan;
    assert AliasAt([Some("x")], 0) == Some("x");
    assert Columns(r)[0] == "x" && Columns(r)[1] == "b";
  }

  /** `CREATE VIEW v(x, y, z) AS SELECT a, b FROM t` fails with 42601. */
  lemma TooManyNamesExample(env: Env, current: SchemaId, p: CreateViewStatement, built: Plan)
    requires Lookup(env, current, p).Success? && env.buildSelect(p.query) == Success(built)
    requires Columns(built) == ["a", "b"] && p.columnNames == Some([Some("x"), Some("y"), Some("z")])
    ensures Bind(env, current, p) == Failure(TooManyColumnNames)
  {
  }

  /** The statement executor for one bound CREATE VIEW statement. */
  class CreateView {
    const p: CreateViewStatement
    var schema: SchemaId
    var existing: Option<ObjectRef>
    var drop: bool
    var toRegister: ViewDef

    /** Stores bind-phase decisions already made. It exists for `New`,
        which is the model of the source's constructor; called directly it
        accepts fields that no binding would produce. */
    constructor (p: CreateViewStatement, schema: SchemaId, existing: Option<ObjectRef>, drop: bool, toRegister: ViewDef)
      ensures this.p == p && this.schema == schema && this.existing == existing
      ensures this.drop == drop && this.toRegister == toRegister
    {
      this.p := p;
      this.schema := schema;
      this.existing := existing;
      this.drop := drop;
      this.toRegister := toRegister;
    }

    /** The bind-phase decisions held by this executor. */
    function State(): Binding
      reads this
    {
      Binding(schema, existing, drop, toRegister)
    }

    /** The relation `execute` drops. */
    function DropTarget(): Option<ObjectRef>
      reads this
    {
      DropTargetOf(State())
    }

    /** The constructor: binds statement p in schema `current`. It reads no
        database state and changes none; on failure no executor and no view
        definition exist. */
    static method New(env: Env, current: SchemaId, p: CreateViewStatement) returns (r: Result<CreateView, QueryError>)
      ensures r.Failure? ==> Bind(env, current, p) == Failure(r.error)
      ensures r.Success? ==> fresh(r.value) && r.value.p == p && Bind(env, current, p) == Success(r.value.State())
    {
      var resolved := env.resolver.getThisOrSiblingFor(current, p.name);
      if resolved.Failure? {
        return Failure(resolved.error);
      }
      var schema := resolved.value;
      var found := env.resolver.asView(env.resolver.getObject(schema, p.name));
      if found.Failure? {
        return Failure(found.error);
      }
      var existing := found.value;
      var drop := p.orReplace && existing.Some?;
      var built := env.buildSelect(p.query);
      if built.Failure? {
        return Failure(built.error);
      }
      var view := built.value;
      if p.columnNames.Some? && |p.columnNames.value| > 0 {
        if |p.columnNames.value| > |Columns(view)| {
          return Failure(TooManyColumnNames);
        }
        view := Select(view, Reproject(Columns(view), p.columnNames.value));
      }
      var cv := new CreateView(p, schema, existing, drop, ViewDef(schema, p.name.name, view));
      return Success(cv);
    }

    /** `execute(t)`: commit t, drop the replaced relation against the
        committed handle, register the definition, fork the committed handle
        and return it tagged CREATE. A failing drop propagates its error and
        leaves the database at the committed handle, with nothing registered
        and no fork. The events it appends to the log are a run of the
        protocol that ends in Done, or in Failed when the drop fails. */
    method Execute(db: Database, t: Handle) returns (r: Result<StatementResult, QueryError>)
      requires db.Issued(t)
      modifies db
      ensures |old(db.log)| <= |db.log| && db.log[..|old(db.log)|] == old(db.log)
      ensures Run(Config(t, DropTarget(), toRegister), db.log[|old(db.log)|..])
           == Some(if r.Success? then Done(old(db.nextHandle), r.value.transaction) else Failed(old(db.nextHandle)))
      ensures r.Success? ==> r.value.command == "CREATE" && r.value.transaction != t
      ensures r.Success? ==> db.views == old(db.views) + [toRegister]
      ensures r.Success? ==> db.dropped == old(db.dropped) + (if DropTarget().Some? then [DropTarget().value] else [])
      ensures r.Success? ==> db.nextHandle == old(db.nextHandle) + 2
      ensures r.Failure? ==>
        DropTarget().Some? && DropTarget().value in db.dropErrors && r.error == db.dropErrors[DropTarget().value]
      ensures r.Failure? ==>
        db.views == old(db.views) && db.dropped == old(db.dropped) && db.nextHandle == old(db.nextHandle) + 1
      ensures db.dropErrors == old(db.dropErrors)
    {
      ghost var start := |db.log|;
      ghost var cfg := Config(t, DropTarget(), toRegister);
      // commit pending data first: schema changes cannot be rolled back
      var tx := db.FullCommit(t);
      ghost var c := tx;
      if existing.Some? && drop {
        var err := db.Drop(existing.value, tx);
        if err.Some? {
          assert db.log[start..] == [Commit(cfg.input, c), Drop(cfg.target.value, c, false)];
          FailedRuns(cfg, db.log[start..], c);
          return Failure(err.value);
        }
      }
      db.Register(toRegister);
      // a new implicit transaction for the statements that follow
      tx := db.Fork(tx);
      assert db.log[start..] == CompletedTrace(cfg, c, tx);
      DoneRuns(cfg, db.log[start..], c, tx);
      r := Success(StatementResult("CREATE", tx));
    }
  }
}
