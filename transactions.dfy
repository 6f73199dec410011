/** The transaction boundary around a schema change: opaque transaction
    handles, the events a CREATE VIEW execution performs on the database,
    the protocol those events must follow, and the database that issues
    handles and holds the registered definitions. */
module Transactions {
  import opened Wrappers
  import opened Names
  import opened Definitions

  /** A transaction handle, identified by the id the database issued it under. */
  type Handle = nat

  /** What the executor does to the database, in the order it does it. */
  datatype Event =
    | Commit(from: Handle, committed: Handle)      // t.fullCommit() returned `committed`
    | Drop(target: ObjectRef, on: Handle, ok: bool) // existing.drop(on), failing when !ok
    | Register(view: ViewDef)                       // toRegister.register()
    | Fork(from: Handle, forked: Handle)            // t.fork() returned `forked`

  /** What one execution is about: the handle it is given, the relation it
      must drop first (if any), and the definition it registers. */
  datatype Config = Config(input: Handle, target: Option<ObjectRef>, view: ViewDef)

  /** The phases of an execution. A failed drop leaves it at the committed
      handle, with nothing registered and no fork. */
  datatype Phase =
    | Bound
    | Committed(c: Handle)
    | Replaced(c: Handle)
    | Registered(c: Handle)
    | Done(c: Handle, f: Handle)
    | Failed(c: Handle)

  /** One step of the protocol: commit the input handle into a new one; drop
      the target (when there is one) against the committed handle; register
      the definition; fork the committed handle into a handle distinct from
      both earlier ones. Any other event is refused. */
  function Step(cfg: Config, p: Phase, e: Event): Option<Phase> {
    match (p, e)
    case (Bound, Commit(from, c)) =>
      if from == cfg.input && c != cfg.input then Some(Committed(c)) else None
    case (Committed(c), Drop(o, h, ok)) =>
      if cfg.target == Some(o) && h == c then Some(if ok then Replaced(c) else Failed(c)) else None
    case (Committed(c), Register(v)) =>
      if cfg.target.None? && v == cfg.view then Some(Registered(c)) else None
    case (Replaced(c), Register(v)) =>
      if v == cfg.view then Some(Registered(c)) else None
    case (Registered(c), Fork(from, f)) =>
      if from == c && f != c && f != cfg.input then Some(Done(c, f)) else None
    case _ => None
  }

  /** The phase a sequence of events leads to from Bound, or None when the
      protocol refuses one of them. */
  function Run(cfg: Config, events: seq<Event>): Option<Phase>
    decreases |events|
  {
    if events == [] then Some(Bound)
    else
      match Run(cfg, events[..|events| - 1])
      case None => None
      case Some(p) => Step(cfg, p, events[|events| - 1])
  }

  /** The events of an execution that runs to the end. */
  function CompletedTrace(cfg: Config, c: Handle, f: Handle): seq<Event> {
    [Commit(cfg.input, c)]
    + (if cfg.target.Some? then [Drop(cfg.target.value, c, true)] else [])
    + [Register(cfg.view), Fork(c, f)]
  }

  /** The number of registrations among some events. */
  function Registrations(events: seq<Event>): nat {
    if events == [] then 0
    else (if events[0].Register? then 1 else 0) + Registrations(events[1..])
  }

  /** Only the empty run is still Bound: no step leads back there. */
  lemma {:induction false} BoundRuns(cfg: Config, events: seq<Event>)
    ensures Run(cfg, events) == Some(Bound) <==> events == []
  {
  }

  lemma {:induction false} CommittedRuns(cfg: Config, events: seq<Event>, c: Handle)
    ensures Run(cfg, events) == Some(Committed(c)) <==> events == [Commit(cfg.input, c)] && c != cfg.input
  {
  }

  lemma {:induction false} ReplacedRuns(cfg: Config, events: seq<Event>, c: Handle)
    ensures Run(cfg, events) == Some(Replaced(c))
        <==> cfg.target.Some? && events == [Commit(cfg.input, c), Drop(cfg.target.value, c, true)] && c != cfg.input
  {
    if events != [] {
      var pre := events[..|events| - 1];
      CommittedRuns(cfg, pre, c);
      assert events == pre + [events[|events| - 1]];
    }
  }

  lemma {:induction false} FailedRuns(cfg: Config, events: seq<Event>, c: Handle)
    ensures Run(cfg, events) == Some(Failed(c))
        <==> cfg.target.Some? && events == [Commit(cfg.input, c), Drop(cfg.target.value, c, false)] && c != cfg.input
  {
    if events != [] {
      var pre := events[..|events| - 1];
      CommittedRuns(cfg, pre, c);
      assert events == pre + [events[|events| - 1]];
    }
  }

  /** The events that precede registration: the commit and, when there is a
      target, its successful drop. */
  function Prelude(cfg: Config, c: Handle): seq<Event> {
    [Commit(cfg.input, c)] + (if cfg.target.Some? then [Drop(cfg.target.value, c, true)] else [])
  }

  lemma {:induction false} RegisteredRuns(cfg: Config, events: seq<Event>, c: Handle)
    ensures Run(cfg, events) == Some(Registered(c))
        <==> events == Prelude(cfg, c) + [Register(cfg.view)] && c != cfg.input
  {
    if events != [] {
      var pre := events[..|events| - 1];
      CommittedRuns(cfg, pre, c);
      ReplacedRuns(cfg, pre, c);
      assert events == pre + [events[|events| - 1]];
    }
  }

  /** The runs that reach the end are exactly the completed traces whose
      committed and forked handles are new. */
  lemma {:induction false} DoneRuns(cfg: Config, events: seq<Event>, c: Handle, f: Handle)
    ensures Run(cfg, events) == Some(Done(c, f))
        <==> events == CompletedTrace(cfg, c, f) && c != cfg.input && f != c && f != cfg.input
  {
    if events != [] {
      var pre := events[..|events| - 1];
      RegisteredRuns(cfg, pre, c);
      assert events == pre + [events[|events| - 1]];
      assert CompletedTrace(cfg, c, f) == Prelude(cfg, c) + [Register(cfg.view)] + [Fork(c, f)];
    }
  }

  lemma {:induction false} RegistrationsAppend(a: seq<Event>, b: seq<Event>)
    ensures Registrations(a + b) == Registrations(a) + Registrations(b)
  {
    if a != [] {
      assert (a + b)[0] == a[0] && (a + b)[1..] == a[1..] + b;
      RegistrationsAppend(a[1..], b);
    } else {
      assert a + b == b;
    }
  }

  /** What every execution that runs to the end has done: it committed the
      input handle first and only once; it dropped only the target, only
      against the committed handle, and did so exactly when there is a
      target, before registering; it registered exactly once; and it ended
      by forking the committed handle into a handle distinct from both the
      input and the committed one. */
  lemma CompletedRunProperties(cfg: Config, events: seq<Event>, c: Handle, f: Handle)
    requires Run(cfg, events) == Some(Done(c, f))
    ensures |events| >= 3 && events[0] == Commit(cfg.input, c) && c != cfg.input
    ensures forall i :: 0 < i < |events| ==> !events[i].Commit?
    ensures forall i :: 0 <= i < |events| && events[i].Drop? ==> cfg.target == Some(events[i].target) && events[i].on == c
    ensures (exists i :: 0 <= i < |events| && events[i].Drop?) <==> cfg.target.Some?
    ensures forall i, j :: 0 <= i < |events| && 0 <= j < |events| && events[i].Drop? && events[j].Register? ==> i < j
    ensures Registrations(events) == 1
    ensures forall i :: 0 <= i < |events| && events[i].Register? ==> events[i].view == cfg.view
    ensures events[|events| - 1] == Fork(c, f) && f != cfg.input && f != c
    ensures forall i :: 0 <= i < |events| - 1 ==> !events[i].Fork?
  {
    DoneRuns(cfg, events, c, f);
    var pre := Prelude(cfg, c);
    assert events == pre + [Register(cfg.view), Fork(c, f)];
    RegistrationsAppend(pre, [Register(cfg.view), Fork(c, f)]);
    RegistrationsAppend([Register(cfg.view)], [Fork(c, f)]);
    if cfg.target.Some? {
      RegistrationsAppend([Commit(cfg.input, c)], [Drop(cfg.target.value, c, true)]);
      assert events[1].Drop?;
    }
  }

  /** What an execution whose drop failed has done: it committed the input
      handle, attempted the drop against the committed handle, and neither
      registered nor forked. */
  lemma FailedRunProperties(cfg: Config, events: seq<Event>, c: Handle)
    requires Run(cfg, events) == Some(Failed(c))
    ensures cfg.target.Some?
    ensures events == [Commit(cfg.input, c), Drop(cfg.target.value, c, false)] && c != cfg.input
    ensures Registrations(events) == 0
    ensures forall i :: 0 <= i < |events| ==> !events[i].Fork?
  {
    FailedRuns(cfg, events, c);
    RegistrationsAppend([Commit(cfg.input, c)], [Drop(cfg.target.value, c, false)]);
  }

  /** The in-memory database as the executor sees it: it issues transaction
      handles, holds the registered view definitions and the relations
      dropped so far, and knows which relations cannot be dropped (for
      instance because other objects depend on them) and with what error.
      The ghost log records every event in order. */
  class Database {
    var nextHandle: nat
    var views: seq<ViewDef>
    var dropped: seq<ObjectRef>
    var dropErrors: map<ObjectRef, QueryError>
    ghost var log: seq<Event>

    /** A database whose initial transaction is handle 0. */
    constructor (dropErrors: map<ObjectRef, QueryError>)
      ensures nextHandle == 1 && views == [] && dropped == [] && log == []
      ensures this.dropErrors == dropErrors
    {
      nextHandle := 1;
      views := [];
      dropped := [];
      this.dropErrors := dropErrors;
      log := [];
    }

    /** Whether the database has issued handle t. */
    predicate Issued(t: Handle)
      reads this
    {
      t < nextHandle
    }

    /** `t.fullCommit()`: makes t's pending changes durable and returns a new handle. */
    method FullCommit(t: Handle) returns (c: Handle)
      requires Issued(t)
      modifies this
      ensures c == old(nextHandle) && nextHandle == c + 1
      ensures log == old(log) + [Event.Commit(t, c)]
      ensures views == old(views) && dropped == old(dropped) && dropErrors == old(dropErrors)
    {
      c := nextHandle;
      nextHandle := nextHandle + 1;
      log := log + [Event.Commit(t, c)];
    }

    /** `t.fork()`: a new handle for the statements that follow. */
    method Fork(t: Handle) returns (f: Handle)
      requires Issued(t)
      modifies this
      ensures f == old(nextHandle) && nextHandle == f + 1
      ensures log == old(log) + [Event.Fork(t, f)]
      ensures views == old(views) && dropped == old(dropped) && dropErrors == old(dropErrors)
    {
      f := nextHandle;
      nextHandle := nextHandle + 1;
      log := log + [Event.Fork(t, f)];
    }

    /** `o.drop(t)`: removes o, or fails with the error recorded for it. */
    method Drop(o: ObjectRef, t: Handle) returns (err: Option<QueryError>)
      requires Issued(t)
      modifies this
      ensures err == if o in dropErrors then Some(dropErrors[o]) else None
      ensures dropped == if err.None? then old(dropped) + [o] else old(dropped)
      ensures log == old(log) + [Event.Drop(o, t, err.None?)]
      ensures nextHandle == old(nextHandle) && views == old(views) && dropErrors == old(dropErrors)
    {
      if o in dropErrors {
        err := Some(dropErrors[o]);
      } else {
        err := None;
        dropped := dropped + [o];
      }
      log := log + [Event.Drop(o, t, err.None?)];
    }

    /** `v.register()`: makes v visible in its schema. */
    method Register(v: ViewDef)
      modifies this
      ensures views == old(views) + [v]
      ensures log == old(log) + [Event.Register(v)]
      ensures nextHandle == old(nextHandle) && dropped == old(dropped) && dropErrors == old(dropErrors)
    {
      views := views + [v];
      log := log + [Event.Register(v)];
    }
  }
}
