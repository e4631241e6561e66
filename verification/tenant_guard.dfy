/**
 The tenant guard: how it rewrites the arguments of a query, and what the rewritten query can see and touch.

 A clause keeps the four keys the guard distinguishes (tenantId, AND, OR, NOT); every other key is an arbitrary
 test of the row's other fields. A store is one table of rows per model, in table order.
 */
module TenantGuard {
  import opened Wrappers

  type TenantId = string
  type Model = string
  type Fields = map<string, int>

  /** A key of a JavaScript object: not there, there but undefined, or there with a value. */
  datatype Key<+T> = Missing | Undefined | Given(value: T)

  // ---------- Clauses ----------

  datatype TenantFilter = Is(tenant: TenantId) | AnyOf(tenants: set<TenantId>) | IsNot(tenant: TenantId)

  datatype Terms = NoTerms | One(term: Where) | Many(terms: seq<Where>)

  datatype Where = Where(tenant: Key<TenantFilter>, and: Terms, or: Terms, not: Terms, test: Fields -> bool)

  datatype Row = Row(tenant: TenantId, fields: Fields)

  predicate TenantMatches(f: TenantFilter, tenant: TenantId) {
    match f
    case Is(t) => tenant == t
    case AnyOf(ts) => tenant in ts
    case IsNot(t) => tenant != t
  }

  /** Top-level keys are conjoined: AND wants all its terms, OR one of them, NOT none of them. */
  predicate Matches(w: Where, r: Row)
    decreases w
  {
    && (w.tenant.Given? ==> TenantMatches(w.tenant.value, r.tenant))
    && AllMatch(w.and, r)
    && (w.or.NoTerms? || !NoneMatches(w.or, r))
    && NoneMatches(w.not, r)
    && w.test(r.fields)
  }

  predicate AllMatch(ts: Terms, r: Row)
    decreases ts
  {
    match ts
    case NoTerms => true
    case One(x) => Matches(x, r)
    case Many(xs) => forall i :: 0 <= i < |xs| ==> Matches(xs[i], r)
  }

  predicate NoneMatches(ts: Terms, r: Row)
    decreases ts
  {
    match ts
    case NoTerms => true
    case One(x) => !Matches(x, r)
    case Many(xs) => forall i :: 0 <= i < |xs| ==> !Matches(xs[i], r)
  }

  const ANYTHING: Where := Where(Missing, NoTerms, NoTerms, NoTerms, _ => true)

  predicate MatchesArg(w: Option<Where>, r: Row) {
    w.Some? ==> Matches(w.value, r)
  }

  /** Narrows a clause to a tenant; a foreign tenant filter is kept as one more AND term. */
  function ScopeWhere(w: Option<Where>, t: TenantId): Where {
    if w.None? then ANYTHING.(tenant := Given(Is(t)))
    else
      var scoped := w.value.(tenant := Given(Is(t)));
      if w.value.tenant.Given? && w.value.tenant.value != Is(t) then
        scoped.(and := Many(TermList(w.value.and) + [ANYTHING.(tenant := w.value.tenant)]))
      else scoped
  }

  function TermList(ts: Terms): seq<Where> {
    match ts
    case NoTerms => []
    case One(x) => [x]
    case Many(xs) => xs
  }

  lemma AllMatchList(ts: Terms, r: Row)
    ensures AllMatch(Many(TermList(ts)), r) <==> AllMatch(ts, r)
  {
    if ts.One? { assert TermList(ts)[0] == ts.term; }
  }

  lemma AllMatchPlus(ts: Terms, extra: Where, r: Row)
    ensures AllMatch(Many(TermList(ts) + [extra]), r) <==> AllMatch(ts, r) && Matches(extra, r)
  {
    var (list, all) := (TermList(ts), TermList(ts) + [extra]);
    AllMatchList(ts, r);
    if AllMatch(Many(all), r) {
      assert Matches(all[|list|], r);
      forall i | 0 <= i < |list| ensures Matches(list[i], r) { assert Matches(all[i], r); }
    }
    if AllMatch(ts, r) && Matches(extra, r) {
      forall i | 0 <= i < |all| ensures Matches(all[i], r) { assert i < |list| ==> all[i] == list[i]; }
    }
  }

  /** A row matches the narrowed clause exactly when it matches the clause and belongs to the tenant. */
  lemma ScopeWhereExact(w: Option<Where>, t: TenantId, r: Row)
    ensures Matches(ScopeWhere(w, t), r) <==> MatchesArg(w, r) && r.tenant == t
  {
    if w.Some? {
      var extra := ANYTHING.(tenant := w.value.tenant);
      AllMatchPlus(w.value.and, extra, r);
      assert Matches(extra, r) <==> (w.value.tenant.Given? ==> TenantMatches(w.value.tenant.value, r.tenant));
    }
  }

  // ---------- Operations on one table ----------

  datatype Operation =
    | FindUnique | FindUniqueOrThrow | FindFirst | FindFirstOrThrow | FindMany
    | Count | Aggregate | GroupBy
    | Update | UpdateMany | Delete | DeleteMany | Upsert | Create | CreateMany

  /** What is written to a row: its tenantId key, and what happens to its other fields. */
  datatype Payload = Payload(tenant: Key<TenantId>, change: Fields -> Fields)

  /** The arguments of an operation: order, skip and take shape the matched rows, and a summary folds them. */
  datatype Args = Args(
    where_: Option<Where>,
    data: Payload,
    rows: seq<Payload>,
    create: Payload,
    update: Payload,
    shape: seq<Row> -> seq<Row>,
    summary: seq<Row> -> int)

  datatype Outcome = Found(row: Option<Row>) | Rows(rows: seq<Row>) | Number(n: int) | NoRecord

  function Written(p: Payload, r: Row): Row {
    Row(if p.tenant.Given? then p.tenant.value else r.tenant, p.change(r.fields))
  }

  function NewRow(p: Payload): Row {
    Written(p, Row("", map[]))
  }

  function NewRows(ps: seq<Payload>): seq<Row> {
    if ps == [] then [] else [NewRow(ps[0])] + NewRows(ps[1..])
  }

  function Select(table: seq<Row>, w: Option<Where>): seq<Row> {
    if table == [] then []
    else if MatchesArg(w, table[0]) then [table[0]] + Select(table[1..], w)
    else Select(table[1..], w)
  }

  function UpdateAll(table: seq<Row>, w: Option<Where>, p: Payload): seq<Row> {
    if table == [] then []
    else [if MatchesArg(w, table[0]) then Written(p, table[0]) else table[0]] + UpdateAll(table[1..], w, p)
  }

  function UpdateFirst(table: seq<Row>, w: Option<Where>, p: Payload): seq<Row> {
    if table == [] then []
    else if MatchesArg(w, table[0]) then [Written(p, table[0])] + table[1..]
    else [table[0]] + UpdateFirst(table[1..], w, p)
  }

  function DeleteAll(table: seq<Row>, w: Option<Where>): seq<Row> {
    if table == [] then []
    else if MatchesArg(w, table[0]) then DeleteAll(table[1..], w)
    else [table[0]] + DeleteAll(table[1..], w)
  }

  function DeleteFirst(table: seq<Row>, w: Option<Where>): seq<Row> {
    if table == [] then []
    else if MatchesArg(w, table[0]) then table[1..]
    else [table[0]] + DeleteFirst(table[1..], w)
  }

  function First(rows: seq<Row>): Option<Row> {
    if rows == [] then None else Some(rows[0])
  }

  /** What the database does with an operation, unguarded. */
  function Exec(table: seq<Row>, op: Operation, a: Args): (seq<Row>, Outcome) {
    var hits := Select(table, a.where_);
    match op
    case FindUnique => (table, Found(First(hits)))
    case FindUniqueOrThrow => (table, if hits == [] then NoRecord else Found(First(hits)))
    case FindFirst => (table, Found(First(a.shape(hits))))
    case FindFirstOrThrow => (table, if a.shape(hits) == [] then NoRecord else Found(First(a.shape(hits))))
    case FindMany => (table, Rows(a.shape(hits)))
    case Count => (table, Number(|a.shape(hits)|))
    case Aggregate => (table, Number(a.summary(a.shape(hits))))
    case GroupBy => (table, Number(a.summary(a.shape(hits))))
    case Update => if hits == [] then (table, NoRecord)
        else (UpdateFirst(table, a.where_, a.data), Found(Some(Written(a.data, hits[0]))))
    case UpdateMany => (UpdateAll(table, a.where_, a.data), Number(|hits|))
    case Delete => if hits == [] then (table, NoRecord) else (DeleteFirst(table, a.where_), Found(Some(hits[0])))
    case DeleteMany => (DeleteAll(table, a.where_), Number(|hits|))
    case Upsert =>
      if hits == [] then (table + [NewRow(a.create)], Found(Some(NewRow(a.create))))
      else (UpdateFirst(table, a.where_, a.update), Found(Some(Written(a.update, hits[0]))))
    case Create => (table + [NewRow(a.data)], Found(Some(NewRow(a.data))))
    case CreateMany => (table + NewRows(a.rows), Number(|a.rows|))
  }

  // ---------- The hook ----------

  const TENANT_SCOPED_MODELS: set<Model> := {
    "TenantUser", "Employee", "EmployeeGroup", "EmployeeGroupMember", "Scenario", "Campaign", "CampaignScenario",
    "Send", "TrainingRoutingRule", "TrainingAssignment", "Report", "CredentialSubmission", "TrainingModule", "Quiz",
    "QuizQuestion", "QuizAttempt", "Certificate", "PhishReport", "TenantReportChannel", "VerifiedDomain",
    "LicenseToken", "SendingDomain", "CustomLandingPage"
  }

  datatype Scope = Scope(tenantId: Option<TenantId>, system: bool)

  datatype GuardError = Unscoped | TenantReassignment

  predicate WhereOp(op: Operation) {
    op != Create && op != CreateMany
  }

  /** The tenant an operation is confined to: none for a global model or in system scope, refused without one. */
  function Confinement(scope: Option<Scope>, model: Model): Result<Option<TenantId>, GuardError> {
    if model !in TENANT_SCOPED_MODELS then Ok(None)
    else if scope.Some? && scope.value.system then Ok(None)
    else if scope.None? || scope.value.tenantId.None? || scope.value.tenantId.value == "" then Err(Unscoped)
    else Ok(Some(scope.value.tenantId.value))
  }

  function Owned(p: Payload, t: TenantId): Payload {
    p.(tenant := Given(t))
  }

  function OwnedRows(ps: seq<Payload>, t: TenantId): (r: seq<Payload>)
    ensures |r| == |ps|
    ensures forall i :: 0 <= i < |ps| ==> r[i] == ps[i].(tenant := Given(t))
  {
    if ps == [] then [] else OwnedRows(ps[..|ps| - 1], t) + [Owned(ps[|ps| - 1], t)]
  }

  /** A tenantId key in an update must name the acting tenant; then it is dropped. */
  predicate Reassigns(p: Payload, t: TenantId) {
    p.tenant != Missing && p.tenant != Given(t)
  }

  function GuardArgs(op: Operation, a: Args, t: TenantId): Result<Args, GuardError> {
    var a1 := if WhereOp(op) then a.(where_ := Some(ScopeWhere(a.where_, t))) else a;
    match op
    case Create => Ok(a1.(data := Owned(a1.data, t)))
    case CreateMany => Ok(a1.(rows := OwnedRows(a1.rows, t)))
    case Upsert =>
      if Reassigns(a.update, t) then Err(TenantReassignment)
      else Ok(a1.(create := Owned(a1.create, t), update := a1.update.(tenant := Missing)))
    case Update | UpdateMany =>
      if Reassigns(a.data, t) then Err(TenantReassignment)
      else Ok(a1.(data := a1.data.(tenant := Missing)))
    case _ => Ok(a1)
  }

  /** `b` asks what `a` asks, of the tenant's rows alone: its clause matches exactly the rows of the tenant that the
      caller's matches; what it writes, how it shapes and sums up rows and how many it creates is the caller's; and
      what it creates belongs to the tenant. */
  ghost predicate Narrows(op: Operation, a: Args, b: Args, t: TenantId) {
    && (if op == Create || op == CreateMany then b.where_ == a.where_
        else forall r :: MatchesArg(b.where_, r) <==> MatchesArg(a.where_, r) && r.tenant == t)
    && b.shape == a.shape && b.summary == a.summary
    && b.data.change == a.data.change && b.create.change == a.create.change && b.update.change == a.update.change
    && |b.rows| == |a.rows| && (forall i :: 0 <= i < |a.rows| ==> b.rows[i].change == a.rows[i].change)
    && (op == Create ==> b.data.tenant == Given(t))
    && (op == CreateMany ==> forall i :: 0 <= i < |b.rows| ==> b.rows[i].tenant == Given(t))
    && (op == Upsert ==> b.create.tenant == Given(t) && b.update.tenant == Missing)
    && (op == Update || op == UpdateMany ==> b.data.tenant == Missing)
  }

  lemma GuardArgsNarrows(op: Operation, a: Args, t: TenantId)
    ensures GuardArgs(op, a, t).Ok? ==> Narrows(op, a, GuardArgs(op, a, t).value, t)
  {
    forall r { ScopeWhereExact(a.where_, t, r); }
  }

  type Tables = map<Model, seq<Row>>

  function Table(db: Tables, m: Model): seq<Row> {
    if m in db then db[m] else []
  }

  datatype Request = Request(model: Model, op: Operation, args: Args)

  /** A query through the guarded client. */
  function Perform(db: Tables, scope: Option<Scope>, q: Request): (Tables, Result<Outcome, GuardError>) {
    match Confinement(scope, q.model)
    case Err(e) => (db, Err(e))
    case Ok(None) =>
      var (table, out) := Exec(Table(db, q.model), q.op, q.args);
      (db[q.model := table], Ok(out))
    case Ok(Some(t)) =>
      match GuardArgs(q.op, q.args, t)
      case Err(e) => (db, Err(e))
      case Ok(a) =>
        var (table, out) := Exec(Table(db, q.model), q.op, a);
        (db[q.model := table], Ok(out))
  }

  function TenantScope(t: TenantId): Option<Scope> {
    Some(Scope(Some(t), false))
  }

  /** The hook itself, reassigning the arguments step by step over a mutable store. */
  class GuardedClient {
    var tables: Tables

    constructor (tables: Tables)
      ensures this.tables == tables
    {
      this.tables := tables;
    }

    method Query(model: Model, op: Operation, args: Args) returns (out: Outcome)
      modifies this
      ensures tables == old(tables)[model := Exec(Table(old(tables), model), op, args).0]
      ensures out == Exec(Table(old(tables), model), op, args).1
    {
      var (table, result) := Exec(Table(tables, model), op, args);
      tables := tables[model := table];
      out := result;
    }

    method StampRows(ps: seq<Payload>, t: TenantId) returns (rows: seq<Payload>)
      ensures rows == OwnedRows(ps, t)
    {
      rows := [];
      for i := 0 to |ps|
        invariant rows == OwnedRows(ps[..i], t)
      {
        assert ps[..i + 1][..i] == ps[..i];
        rows := rows + [ps[i].(tenant := Given(t))];
      }
      assert ps[..|ps|] == ps;
    }

    /** `sent` is what reaches the database, if anything does. */
    method AllOperations(scope: Option<Scope>, q: Request)
      returns (r: Result<Outcome, GuardError>, ghost sent: Option<Args>)
      modifies this
      ensures (tables, r) == Perform(old(tables), scope, q)
      ensures r.Err? <==> sent.None?
      ensures r.Err? ==> tables == old(tables)
      ensures sent.Some? ==>
                var (table, out) := Exec(Table(old(tables), q.model), q.op, sent.value);
                tables == old(tables)[q.model := table] && r == Ok(out)
      ensures sent.Some? && (q.model !in TENANT_SCOPED_MODELS || (scope.Some? && scope.value.system)) ==>
                sent.value == q.args
      ensures sent.Some? && q.model in TENANT_SCOPED_MODELS && !(scope.Some? && scope.value.system) ==>
                && scope.Some? && scope.value.tenantId.Some? && scope.value.tenantId.value != ""
                && Narrows(q.op, q.args, sent.value, scope.value.tenantId.value)
    {
      var out;
      if q.model !in TENANT_SCOPED_MODELS || (scope.Some? && scope.value.system) {
        out := Query(q.model, q.op, q.args);
        return Ok(out), Some(q.args);
      }
      if scope.None? || scope.value.tenantId.None? || scope.value.tenantId.value == "" {
        return Err(Unscoped), None;
      }
      var t := scope.value.tenantId.value;
      var next := q.args;
      if WhereOp(q.op) {
        next := next.(where_ := Some(ScopeWhere(next.where_, t)));
      }
      if q.op == CreateMany {
        var rows := StampRows(next.rows, t);
        next := next.(rows := rows);
      } else if q.op == Upsert {
        next := next.(create := Owned(next.create, t));
      } else if q.op == Create {
        next := next.(data := Owned(next.data, t));
      }
      if q.op == Update || q.op == UpdateMany || q.op == Upsert {
        var payload := if q.op == Upsert then next.update else next.data;
        if payload.tenant != Missing && payload.tenant != Given(t) {
          return Err(TenantReassignment), None;
        }
        payload := payload.(tenant := Missing);
        next := if q.op == Upsert then next.(update := payload) else next.(data := payload);
      }
      GuardArgsNarrows(q.op, q.args, t);
      out := Query(q.model, q.op, next);
      return Ok(out), Some(next);
    }
  }

  // ---------- What a guarded query sees and touches ----------

  /** The rows of a table that belong to a tenant, in table order, and the rows that do not. */
  function Own(table: seq<Row>, t: TenantId): seq<Row> {
    if table == [] then []
    else if table[0].tenant == t then [table[0]] + Own(table[1..], t)
    else Own(table[1..], t)
  }

  function Others(table: seq<Row>, t: TenantId): seq<Row> {
    if table == [] then []
    else if table[0].tenant == t then Others(table[1..], t)
    else [table[0]] + Others(table[1..], t)
  }

  lemma {:induction false} OwnAppend(a: seq<Row>, b: seq<Row>, t: TenantId)
    ensures Own(a + b, t) == Own(a, t) + Own(b, t)
    decreases |a|
  {
    if a == [] {
      assert a + b == b;
    } else {
      assert (a + b)[1..] == a[1..] + b;
      OwnAppend(a[1..], b, t);
    }
  }

  lemma {:induction false} OthersAppend(a: seq<Row>, b: seq<Row>, t: TenantId)
    ensures Others(a + b, t) == Others(a, t) + Others(b, t)
    decreases |a|
  {
    if a == [] {
      assert a + b == b;
    } else {
      assert (a + b)[1..] == a[1..] + b;
      OthersAppend(a[1..], b, t);
    }
  }

  lemma SplitCons(r: Row, rest: seq<Row>, t: TenantId)
    ensures Own([r] + rest, t) == if r.tenant == t then [r] + Own(rest, t) else Own(rest, t)
    ensures Others([r] + rest, t) == if r.tenant == t then Others(rest, t) else [r] + Others(rest, t)
  {
    assert ([r] + rest)[1..] == rest;
  }

  /** The clause can only match rows of the tenant. */
  ghost predicate Confined(w: Option<Where>, t: TenantId) {
    forall r :: MatchesArg(w, r) ==> r.tenant == t
  }

  /** The payload leaves a row with the tenant it has. */
  predicate KeepsTenant(p: Payload) {
    !p.tenant.Given?
  }

  lemma {:induction false} SelectOwn(table: seq<Row>, w: Option<Where>, t: TenantId)
    requires Confined(w, t)
    ensures Select(table, w) == Select(Own(table, t), w)
    decreases |table|
  {
    if table != [] {
      SelectOwn(table[1..], w, t);
      if table[0].tenant == t {
        assert Own(table, t)[1..] == Own(table[1..], t);
      }
    }
  }

  lemma {:induction false} UpdateAllOwn(table: seq<Row>, w: Option<Where>, p: Payload, t: TenantId)
    requires Confined(w, t) && KeepsTenant(p)
    ensures Own(UpdateAll(table, w, p), t) == UpdateAll(Own(table, t), w, p)
    ensures Others(UpdateAll(table, w, p), t) == Others(table, t)
    decreases |table|
  {
    if table != [] {
      UpdateAllOwn(table[1..], w, p, t);
      SplitCons(UpdateAll(table, w, p)[0], UpdateAll(table[1..], w, p), t);
      if table[0].tenant == t {
        assert Own(table, t)[1..] == Own(table[1..], t);
      }
    }
  }

  lemma {:induction false} UpdateFirstOwn(table: seq<Row>, w: Option<Where>, p: Payload, t: TenantId)
    requires Confined(w, t) && KeepsTenant(p)
    ensures Own(UpdateFirst(table, w, p), t) == UpdateFirst(Own(table, t), w, p)
    ensures Others(UpdateFirst(table, w, p), t) == Others(table, t)
    decreases |table|
  {
    if table != [] {
      UpdateFirstOwn(table[1..], w, p, t);
      if MatchesArg(w, table[0]) {
        SplitCons(Written(p, table[0]), table[1..], t);
      } else {
        SplitCons(table[0], UpdateFirst(table[1..], w, p), t);
      }
      if table[0].tenant == t {
        assert Own(table, t)[1..] == Own(table[1..], t);
      }
    }
  }

  lemma {:induction false} DeleteAllOwn(table: seq<Row>, w: Option<Where>, t: TenantId)
    requires Confined(w, t)
    ensures Own(DeleteAll(table, w), t) == DeleteAll(Own(table, t), w)
    ensures Others(DeleteAll(table, w), t) == Others(table, t)
    decreases |table|
  {
    if table != [] {
      DeleteAllOwn(table[1..], w, t);
      if !MatchesArg(w, table[0]) {
        SplitCons(table[0], DeleteAll(table[1..], w), t);
      }
      if table[0].tenant == t {
        assert Own(table, t)[1..] == Own(table[1..], t);
      }
    }
  }

  lemma {:induction false} DeleteFirstOwn(table: seq<Row>, w: Option<Where>, t: TenantId)
    requires Confined(w, t)
    ensures Own(DeleteFirst(table, w), t) == DeleteFirst(Own(table, t), w)
    ensures Others(DeleteFirst(table, w), t) == Others(table, t)
    decreases |table|
  {
    if table != [] {
      DeleteFirstOwn(table[1..], w, t);
      if !MatchesArg(w, table[0]) {
        SplitCons(table[0], DeleteFirst(table[1..], w), t);
      }
      if table[0].tenant == t {
        assert Own(table, t)[1..] == Own(table[1..], t);
      }
    }
  }

  lemma {:induction false} NewRowsOwn(ps: seq<Payload>, t: TenantId)
    requires forall i :: 0 <= i < |ps| ==> ps[i].tenant == Given(t)
    ensures Own(NewRows(ps), t) == NewRows(ps) && Others(NewRows(ps), t) == []
    decreases |ps|
  {
    if ps != [] {
      NewRowsOwn(ps[1..], t);
      assert NewRows(ps)[1..] == NewRows(ps[1..]);
    }
  }

  /** The operation's clause is confined to the tenant, what it creates belongs to it and what it updates stays put. */
  ghost predicate Guarded(op: Operation, a: Args, t: TenantId) {
    && (WhereOp(op) ==> Confined(a.where_, t))
    && (op == Create ==> a.data.tenant == Given(t))
    && (op == CreateMany ==> forall i :: 0 <= i < |a.rows| ==> a.rows[i].tenant == Given(t))
    && (op == Upsert ==> a.create.tenant == Given(t) && KeepsTenant(a.update))
    && (op == Update || op == UpdateMany ==> KeepsTenant(a.data))
  }

  lemma {:induction false} OwnedRowsGiven(ps: seq<Payload>, t: TenantId)
    ensures forall i :: 0 <= i < |ps| ==> OwnedRows(ps, t)[i].tenant == Given(t)
    decreases |ps|
  {
    if ps != [] {
      OwnedRowsGiven(ps[..|ps| - 1], t);
    }
  }

  lemma GuardArgsGuards(op: Operation, a: Args, t: TenantId)
    ensures GuardArgs(op, a, t).Ok? ==> Guarded(op, GuardArgs(op, a, t).value, t)
  {
    forall r { ScopeWhereExact(a.where_, t, r); }
    OwnedRowsGiven(a.rows, t);
  }

  /** What the operation writes to existing rows. */
  function UpdatePayload(op: Operation, a: Args): Option<Payload> {
    match op
    case Update | UpdateMany => Some(a.data)
    case Upsert => Some(a.update)
    case _ => None
  }

  /** Written to some row of the tenant, the payload would hand it to another tenant. */
  ghost predicate MovesRows(p: Payload, t: TenantId) {
    exists r: Row :: r.tenant == t && Written(p, r).tenant != t
  }

  /** The operation's update would move a row of the tenant to another one, or carries a tenantId key that is
      undefined (which would move none). */
  ghost predicate Trespasses(op: Operation, a: Args, t: TenantId) {
    var p := UpdatePayload(op, a);
    p.Some? && (MovesRows(p.value, t) || p.value.tenant == Undefined)
  }

  /** A guarded operation is refused exactly then. */
  lemma RefusedIffMovesRows(op: Operation, a: Args, t: TenantId)
    ensures GuardArgs(op, a, t) == Err(TenantReassignment) <==> Trespasses(op, a, t)
    ensures GuardArgs(op, a, t).Err? ==> GuardArgs(op, a, t).error == TenantReassignment
  {
    var p := UpdatePayload(op, a);
    if p.Some? && p.value.tenant.Given? && p.value.tenant.value != t {
      assert Written(p.value, Row(t, map[])).tenant != t;
    }
  }

  /** Running a guarded operation on the whole table is running it on the tenant's own rows:
      the same outcome, the same effect on them, and no effect on the rest. */
  lemma ExecOwn(table: seq<Row>, op: Operation, a: Args, t: TenantId)
    requires Guarded(op, a, t)
    ensures Exec(table, op, a).1 == Exec(Own(table, t), op, a).1
    ensures Own(Exec(table, op, a).0, t) == Exec(Own(table, t), op, a).0
    ensures Others(Exec(table, op, a).0, t) == Others(table, t)
  {
    if WhereOp(op) {
      SelectOwn(table, a.where_, t);
    }
    match op
    case Update => UpdateFirstOwn(table, a.where_, a.data, t);
    case UpdateMany => UpdateAllOwn(table, a.where_, a.data, t);
    case Delete => DeleteFirstOwn(table, a.where_, t);
    case DeleteMany => DeleteAllOwn(table, a.where_, t);
    case Upsert =>
      UpdateFirstOwn(table, a.where_, a.update, t);
      AppendOwn(table, NewRow(a.create), t);
    case Create => AppendOwn(table, NewRow(a.data), t);
    case CreateMany =>
      NewRowsOwn(a.rows, t);
      OwnAppend(table, NewRows(a.rows), t);
      OthersAppend(table, NewRows(a.rows), t);
    case _ =>
  }

  lemma AppendOwn(table: seq<Row>, r: Row, t: TenantId)
    requires r.tenant == t
    ensures Own(table + [r], t) == Own(table, t) + [r] && Others(table + [r], t) == Others(table, t)
  {
    OwnAppend(table, [r], t);
    OthersAppend(table, [r], t);
    assert Own([r], t) == [r] && Others([r], t) == [];
  }

  // ---------- A guarded query is the caller's own query on its own rows ----------

  /** On the tenant's rows the two clauses match alike, and the two payloads write alike. */
  ghost predicate SameFor(w: Option<Where>, v: Option<Where>, t: TenantId) {
    forall r: Row :: r.tenant == t ==> (MatchesArg(w, r) <==> MatchesArg(v, r))
  }

  ghost predicate WriteAlike(p: Payload, q: Payload, t: TenantId) {
    forall r: Row :: r.tenant == t ==> Written(p, r) == Written(q, r)
  }

  ghost predicate AllOf(table: seq<Row>, t: TenantId) {
    forall i :: 0 <= i < |table| ==> table[i].tenant == t
  }

  lemma {:induction false} OwnAllOf(table: seq<Row>, t: TenantId)
    ensures AllOf(Own(table, t), t)
    decreases |table|
  {
    if table != [] { OwnAllOf(table[1..], t); }
  }

  lemma {:induction false} SelectSame(table: seq<Row>, w: Option<Where>, v: Option<Where>, t: TenantId)
    requires AllOf(table, t) && SameFor(w, v, t)
    ensures Select(table, w) == Select(table, v)
    ensures Select(table, w) != [] ==> Select(table, w)[0] in table
    decreases |table|
  {
    if table != [] { SelectSame(table[1..], w, v, t); }
  }

  lemma {:induction false} UpdateAllSame(table: seq<Row>, w: Option<Where>, v: Option<Where>, p: Payload, q: Payload,
      t: TenantId)
    requires AllOf(table, t) && SameFor(w, v, t) && WriteAlike(p, q, t)
    ensures UpdateAll(table, w, p) == UpdateAll(table, v, q)
    decreases |table|
  {
    if table != [] { UpdateAllSame(table[1..], w, v, p, q, t); }
  }

  lemma {:induction false} UpdateFirstSame(table: seq<Row>, w: Option<Where>, v: Option<Where>, p: Payload, q: Payload,
      t: TenantId)
    requires AllOf(table, t) && SameFor(w, v, t) && WriteAlike(p, q, t)
    ensures UpdateFirst(table, w, p) == UpdateFirst(table, v, q)
    decreases |table|
  {
    if table != [] { UpdateFirstSame(table[1..], w, v, p, q, t); }
  }

  lemma {:induction false} DeleteSame(table: seq<Row>, w: Option<Where>, v: Option<Where>, t: TenantId)
    requires AllOf(table, t) && SameFor(w, v, t)
    ensures DeleteAll(table, w) == DeleteAll(table, v) && DeleteFirst(table, w) == DeleteFirst(table, v)
    decreases |table|
  {
    if table != [] { DeleteSame(table[1..], w, v, t); }
  }

  /** `b` is the caller's query `a` as one who owns the whole table would put it: the same clause, shape, summary and
      changes; only what it creates is marked as the tenant's. */
  ghost predicate AsOwner(op: Operation, a: Args, b: Args, t: TenantId) {
    && b.where_ == a.where_ && b.shape == a.shape && b.summary == a.summary && b.update == a.update
    && b.data == (if op == Create then a.data.(tenant := Given(t)) else a.data)
    && b.create == a.create.(tenant := Given(t))
    && |b.rows| == |a.rows| && (forall i :: 0 <= i < |a.rows| ==> b.rows[i] == a.rows[i].(tenant := Given(t)))
  }

  lemma ExecSame(own: seq<Row>, op: Operation, g: Args, a: Args, b: Args, t: TenantId)
    requires AllOf(own, t) && Narrows(op, a, g, t) && AsOwner(op, a, b, t) && !Trespasses(op, a, t)
    requires op == CreateMany ==> forall i :: 0 <= i < |g.rows| ==> g.rows[i] == b.rows[i]
    ensures Exec(own, op, g) == Exec(own, op, b)
  {
    if WhereOp(op) {
      SelectSame(own, g.where_, b.where_, t);
    }
    match op
    case Update => SameUpdate(own, g, b, g.data, b.data, t);
    case UpdateMany => SameUpdate(own, g, b, g.data, b.data, t);
    case Upsert => SameUpdate(own, g, b, g.update, b.update, t);
    case Delete => DeleteSame(own, g.where_, b.where_, t);
    case DeleteMany => DeleteSame(own, g.where_, b.where_, t);
    case CreateMany => assert g.rows == b.rows;
    case _ =>
  }

  lemma SameUpdate(own: seq<Row>, g: Args, b: Args, p: Payload, q: Payload, t: TenantId)
    requires AllOf(own, t) && SameFor(g.where_, b.where_, t)
    requires p.tenant == Missing && q.change == p.change && !MovesRows(q, t)
    ensures UpdateFirst(own, g.where_, p) == UpdateFirst(own, b.where_, q)
    ensures UpdateAll(own, g.where_, p) == UpdateAll(own, b.where_, q)
    ensures Select(own, g.where_) == Select(own, b.where_)
    ensures forall r :: r in own ==> Written(p, r) == Written(q, r)
    ensures Select(own, g.where_) != [] ==> Select(own, g.where_)[0] in own
  {
    assert WriteAlike(p, q, t);
    UpdateFirstSame(own, g.where_, b.where_, p, q, t);
    UpdateAllSame(own, g.where_, b.where_, p, q, t);
    SelectSame(own, g.where_, b.where_, t);
  }

  /** Under a tenant, a query that would not move rows to another tenant has the outcome, and on the tenant's rows the
      effect, that the caller's own query has on a table holding these rows alone; one that would is refused, and
      nothing changes. */
  lemma PerformIsOwnQuery(db: Tables, t: TenantId, q: Request, b: Args)
    requires t != "" && q.model in TENANT_SCOPED_MODELS && AsOwner(q.op, q.args, b, t)
    ensures
      var (db', r) := Perform(db, TenantScope(t), q);
      var (own, out) := Exec(Own(Table(db, q.model), t), q.op, b);
      if Trespasses(q.op, q.args, t) then db' == db && r == Err(TenantReassignment)
      else r == Ok(out) && Own(Table(db', q.model), t) == own
           && (forall m :: m != q.model ==> Table(db', m) == Table(db, m))
  {
    RefusedIffMovesRows(q.op, q.args, t);
    if !Trespasses(q.op, q.args, t) {
      var g := GuardArgs(q.op, q.args, t).value;
      GuardArgsGuards(q.op, q.args, t);
      GuardArgsNarrows(q.op, q.args, t);
      ExecOwn(Table(db, q.model), q.op, g, t);
      OwnAllOf(Table(db, q.model), t);
      ExecSame(Own(Table(db, q.model), t), q.op, g, q.args, b, t);
    }
  }

  // ---------- Any program run under one tenant ----------

  /** Two databases look the same to a tenant: its own rows agree, and so do the global tables. */
  ghost predicate Agree(db1: Tables, db2: Tables, t: TenantId) {
    forall m :: AgreeOn(db1, db2, t, m)
  }

  predicate AgreeOn(db1: Tables, db2: Tables, t: TenantId, m: Model) {
    if m in TENANT_SCOPED_MODELS then Own(Table(db1, m), t) == Own(Table(db2, m), t)
    else Table(db1, m) == Table(db2, m)
  }

  /** No scoped table differs in the rows of other tenants. */
  ghost predicate OthersKept(db: Tables, db': Tables, t: TenantId) {
    forall m :: OthersKeptIn(db, db', t, m)
  }

  predicate OthersKeptIn(db: Tables, db': Tables, t: TenantId, m: Model) {
    m in TENANT_SCOPED_MODELS ==> Others(Table(db', m), t) == Others(Table(db, m), t)
  }

  lemma PerformLocal(db: Tables, t: TenantId, q: Request)
    requires t != ""
    ensures OthersKept(db, Perform(db, TenantScope(t), q).0, t)
  {
    if q.model in TENANT_SCOPED_MODELS && GuardArgs(q.op, q.args, t).Ok? {
      GuardArgsGuards(q.op, q.args, t);
      ExecOwn(Table(db, q.model), q.op, GuardArgs(q.op, q.args, t).value, t);
    }
  }

  lemma ExecAgree(t1: seq<Row>, t2: seq<Row>, op: Operation, a: Args, t: TenantId)
    requires Guarded(op, a, t) && Own(t1, t) == Own(t2, t)
    ensures Exec(t1, op, a).1 == Exec(t2, op, a).1
    ensures Own(Exec(t1, op, a).0, t) == Own(Exec(t2, op, a).0, t)
  {
    ExecOwn(t1, op, a, t);
    ExecOwn(t2, op, a, t);
  }

  lemma SetTable(db: Tables, m: Model, table: seq<Row>, k: Model)
    ensures Table(db[m := table], k) == if k == m then table else Table(db, k)
  {
  }

  lemma SetAgree(db1: Tables, db2: Tables, t: TenantId, m: Model, t1: seq<Row>, t2: seq<Row>)
    requires Agree(db1, db2, t)
    requires if m in TENANT_SCOPED_MODELS then Own(t1, t) == Own(t2, t) else t1 == t2
    ensures Agree(db1[m := t1], db2[m := t2], t)
  {
    var d1, d2 := db1[m := t1], db2[m := t2];
    forall k ensures AgreeOn(d1, d2, t, k) {
      SetTable(db1, m, t1, k);
      SetTable(db2, m, t2, k);
      assert AgreeOn(db1, db2, t, k);
    }
  }

  lemma PerformAgree(db1: Tables, db2: Tables, t: TenantId, q: Request)
    requires t != "" && Agree(db1, db2, t)
    ensures Perform(db1, TenantScope(t), q).1 == Perform(db2, TenantScope(t), q).1
    ensures Agree(Perform(db1, TenantScope(t), q).0, Perform(db2, TenantScope(t), q).0, t)
  {
    var m, t1, t2 := q.model, Table(db1, q.model), Table(db2, q.model);
    assert AgreeOn(db1, db2, t, m);
    if m !in TENANT_SCOPED_MODELS {
      SetAgree(db1, db2, t, m, Exec(t1, q.op, q.args).0, Exec(t2, q.op, q.args).0);
    } else if GuardArgs(q.op, q.args, t).Ok? {
      var a := GuardArgs(q.op, q.args, t).value;
      GuardArgsGuards(q.op, q.args, t);
      ExecAgree(t1, t2, q.op, a, t);
      SetAgree(db1, db2, t, m, Exec(t1, q.op, a).0, Exec(t2, q.op, a).0);
    }
  }

  /** A program: each request may depend on every result so far. */
  type Program = seq<Result<Outcome, GuardError>> -> Request

  function Execute(db: Tables, scope: Option<Scope>, p: Program, n: nat): (Tables, seq<Result<Outcome, GuardError>>) {
    if n == 0 then (db, [])
    else
      var (db1, results) := Execute(db, scope, p, n - 1);
      var (db2, r) := Perform(db1, scope, p(results));
      (db2, results + [r])
  }

  lemma OthersKeptTrans(a: Tables, b: Tables, c: Tables, t: TenantId)
    requires OthersKept(a, b, t) && OthersKept(b, c, t)
    ensures OthersKept(a, c, t)
  {
    forall m ensures OthersKeptIn(a, c, t, m) {
      assert OthersKeptIn(a, b, t, m) && OthersKeptIn(b, c, t, m);
    }
  }

  lemma {:induction false} OthersUntouched(db: Tables, t: TenantId, p: Program, n: nat)
    requires t != ""
    ensures OthersKept(db, Execute(db, TenantScope(t), p, n).0, t)
  {
    if n > 0 {
      OthersUntouched(db, t, p, n - 1);
      var (d, results) := Execute(db, TenantScope(t), p, n - 1);
      PerformLocal(d, t, p(results));
      OthersKeptTrans(db, d, Perform(d, TenantScope(t), p(results)).0, t);
    }
  }

  lemma {:induction false} SameView(db1: Tables, db2: Tables, t: TenantId, p: Program, n: nat)
    requires t != "" && Agree(db1, db2, t)
    ensures Execute(db1, TenantScope(t), p, n).1 == Execute(db2, TenantScope(t), p, n).1
    ensures Agree(Execute(db1, TenantScope(t), p, n).0, Execute(db2, TenantScope(t), p, n).0, t)
  {
    if n > 0 {
      SameView(db1, db2, t, p, n - 1);
      var (d1, results) := Execute(db1, TenantScope(t), p, n - 1);
      var d2 := Execute(db2, TenantScope(t), p, n - 1).0;
      PerformAgree(d1, d2, t, p(results));
    }
  }

  /**
   Noninterference: whatever program runs under a tenant, for as many queries as it likes, every other tenant's
   rows are left as they were; and on two databases that agree on the tenant's rows and the global tables it gets
   the same results and keeps them agreeing.
   */
  lemma Noninterference(db1: Tables, db2: Tables, t: TenantId, p: Program, n: nat)
    requires t != "" && Agree(db1, db2, t)
    ensures
      var (after1, results1) := Execute(db1, TenantScope(t), p, n);
      var (after2, results2) := Execute(db2, TenantScope(t), p, n);
      OthersKept(db1, after1, t) && results1 == results2 && Agree(after1, after2, t)
  {
    OthersUntouched(db1, t, p, n);
    SameView(db1, db2, t, p, n);
  }

  /** Without a tenant in scope, every query on a scoped model throws, and no program changes a scoped table. */
  lemma {:induction false} UnscopedChangesNothing(db: Tables, scope: Option<Scope>, p: Program, n: nat, m: Model)
    requires scope.None? || (!scope.value.system && (scope.value.tenantId.None? || scope.value.tenantId.value == ""))
    requires m in TENANT_SCOPED_MODELS
    ensures Table(Execute(db, scope, p, n).0, m) == Table(db, m)
    ensures forall i :: 0 <= i < n && p(Execute(db, scope, p, i).1).model in TENANT_SCOPED_MODELS ==>
              i < |Execute(db, scope, p, n).1| && Execute(db, scope, p, n).1[i] == Err(Unscoped)
  {
    ResultCount(db, scope, p, n);
    if n > 0 {
      UnscopedChangesNothing(db, scope, p, n - 1, m);
      ResultCount(db, scope, p, n - 1);
    }
  }

  lemma {:induction false} ResultCount(db: Tables, scope: Option<Scope>, p: Program, n: nat)
    ensures |Execute(db, scope, p, n).1| == n
  {
    if n > 0 {
      ResultCount(db, scope, p, n - 1);
    }
  }
}
