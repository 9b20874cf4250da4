/** A small OVSDB server: tables of rows and the transaction semantics of RFC 7047, sections
    4.1.3 (transact), 5.2.1 (insert), 5.2.3 (update), 5.2.4 (mutate) and 5.2.6 (wait). */
module Ovsdb {
  import opened Basics

  type Uuid = nat
  type Column = string

  datatype Table = AwlanNode | RadioConfig | RadioState | VifConfig | VifState | Clients

  datatype Atom = Str(text: Bytes) | Num(number: int) | Bool(truth: bool) | Ref(target: Uuid)

  /** A scalar is a one-element set, an absent optional value the empty set. */
  datatype Datum = Atoms(atoms: set<Atom>) | Dict(pairs: map<Bytes, Bytes>)

  type Row = map<Column, Datum>
  type Rows = map<Uuid, Row>
  type Database = map<Table, Rows>

  const UUID_COLUMN := "_uuid"

  function RowsOf(db: Database, table: Table): Rows {
    if table in db then db[table] else map[]
  }

  // -- Operations -----------------------------------------------------------------

  datatype Where = AnyRow | TheRow(row: Uuid)

  datatype Mutation = DeleteKeys(column: Column, keys: set<Bytes>) | InsertPairs(column: Column, pairs: map<Bytes, Bytes>)

  datatype Request =
    | Wait(table: Table, where_: Where, columns: seq<Column>, rows: set<Row>)
    | Update(table: Table, where_: Where, row: Row)
    | Mutate(table: Table, where_: Where, mutations: seq<Mutation>)
    | Insert(table: Table, name: Uuid, row: Row)

  datatype Reply = Empty | Count(count: nat) | Inserted(row: Uuid) | Failure(error: string) | Skipped

  function Selected(db: Database, table: Table, where_: Where): set<Uuid> {
    match where_
    case AnyRow => RowsOf(db, table).Keys
    case TheRow(u) => if u in RowsOf(db, table) then {u} else {}
  }

  function Cell(row: Row, u: Uuid, column: Column): Option<Datum> {
    if column == UUID_COLUMN then Some(Atoms({Ref(u)}))
    else if column in row then Some(row[column])
    else None
  }

  /** The row restricted to the columns of a wait. */
  function Projection(row: Row, u: Uuid, columns: seq<Column>): Row {
    map c | c in columns && Cell(row, u, c).Some? :: Cell(row, u, c).value
  }

  function Projected(db: Database, table: Table, where_: Where, columns: seq<Column>): set<Row> {
    set u | u in Selected(db, table, where_) :: Projection(RowsOf(db, table)[u], u, columns)
  }

  /** Deleting removes whole pairs by key; inserting never replaces the value of a key that is
      already there. */
  function Mutated(row: Row, m: Mutation): Option<Row> {
    if m.column !in row || !row[m.column].Dict? then None
    else
      var pairs := row[m.column].pairs;
      match m
      case DeleteKeys(_, keys) => Some(row[m.column := Dict(pairs - keys)])
      case InsertPairs(_, more) => Some(row[m.column := Dict(more + pairs)])
  }

  function MutatedAll(row: Row, mutations: seq<Mutation>): Option<Row> {
    if mutations == [] then Some(row)
    else
      match Mutated(row, mutations[0])
      case None => None
      case Some(next) => MutatedAll(next, mutations[1..])
  }

  function UpdatedRows(rows: Rows, hit: set<Uuid>, row: Row): Rows {
    map u: Uuid | u in rows :: if u in hit then rows[u] + row else rows[u]
  }

  predicate Immutable(rows: Rows, hit: set<Uuid>, mutations: seq<Mutation>) {
    exists u :: u in hit && u in rows && MutatedAll(rows[u], mutations).None?
  }

  function MutatedRows(rows: Rows, hit: set<Uuid>, mutations: seq<Mutation>): Rows {
    map u: Uuid | u in rows ::
      if u in hit && MutatedAll(rows[u], mutations).Some? then MutatedAll(rows[u], mutations).value else rows[u]
  }

  datatype Step = Done(db: Database, reply: Reply) | Stopped(error: string)

  function Perform(db: Database, r: Request): Step {
    match r
    case Wait(table, where_, columns, rows) =>
      if Projected(db, table, where_, columns) == rows then Done(db, Empty) else Stopped("timed out")
    case Update(table, where_, row) =>
      var hit := Selected(db, table, where_);
      Done(db[table := UpdatedRows(RowsOf(db, table), hit, row)], Count(|hit|))
    case Mutate(table, where_, mutations) =>
      var hit := Selected(db, table, where_);
      if Immutable(RowsOf(db, table), hit, mutations) then Stopped("domain error")
      else Done(db[table := MutatedRows(RowsOf(db, table), hit, mutations)], Count(|hit|))
    case Insert(table, name, row) =>
      if name in RowsOf(db, table) then Stopped("duplicate uuid")
      else Done(db[table := RowsOf(db, table)[name := row]], Inserted(name))
  }

  // -- Transactions ---------------------------------------------------------------

  datatype Outcome = Outcome(db: Database, replies: seq<Reply>)

  function SkippedReplies(n: nat): seq<Reply> {
    seq(n, i => Skipped)
  }

  /** Operations run in order on a private copy; the first failure stops the rest. */
  function Attempted(db: Database, requests: seq<Request>): (Option<Database>, seq<Reply>)
    decreases |requests|
  {
    if requests == [] then (Some(db), [])
    else
      match Perform(db, requests[0])
      case Stopped(error) => (None, [Failure(error)] + SkippedReplies(|requests| - 1))
      case Done(next, reply) =>
        var (final, replies) := Attempted(next, requests[1..]);
        (final, [reply] + replies)
  }

  /** All or nothing. `refusal` is a constraint the server finds violated only at commit: then
      every operation has its reply and one more element reports the error. */
  function Transact(db: Database, requests: seq<Request>, refusal: Option<string>): Outcome {
    match Attempted(db, requests)
    case (None, replies) => Outcome(db, replies)
    case (Some(final), replies) =>
      match refusal
      case None => Outcome(final, replies)
      case Some(error) => Outcome(db, replies + [Failure(error)])
  }

  /** The transaction took effect. */
  predicate Commits(db: Database, requests: seq<Request>, refusal: Option<string>) {
    Attempted(db, requests).0.Some? && refusal.None?
  }

  lemma DoneIsNoFailure(db: Database, r: Request)
    ensures Perform(db, r).Done? ==> !Perform(db, r).reply.Failure?
  {
    hide Projected, UpdatedRows, MutatedRows, Immutable;
  }

  lemma {:induction false} AttemptReplies(db: Database, requests: seq<Request>)
    ensures |Attempted(db, requests).1| == |requests|
    ensures Attempted(db, requests).0.None? <==> exists i :: 0 <= i < |requests| && Attempted(db, requests).1[i].Failure?
    decreases |requests|
  {
    hide Perform;
    if requests != [] {
      match Perform(db, requests[0])
      case Stopped(error) => assert Attempted(db, requests).1[0].Failure?;
      case Done(next, reply) =>
        DoneIsNoFailure(db, requests[0]);
        AttemptReplies(next, requests[1..]);
        var rest := Attempted(next, requests[1..]).1;
        var all := Attempted(db, requests).1;
        assert all[0] == reply && !reply.Failure?;
        assert forall i :: 0 <= i < |rest| ==> all[i + 1] == rest[i];
    }
  }

  /** A reply array tells exactly whether the transaction committed: as many replies as
      operations and no error among them. */
  lemma RepliesTellCommit(db: Database, requests: seq<Request>, refusal: Option<string>)
    ensures var outcome := Transact(db, requests, refusal);
            && (Commits(db, requests, refusal) <==>
                  |outcome.replies| == |requests| && forall i :: 0 <= i < |outcome.replies| ==> !outcome.replies[i].Failure?)
            && (!Commits(db, requests, refusal) ==> outcome.db == db)
  {
    AttemptReplies(db, requests);
  }

  // -- Guarded single-row transactions ----------------------------------------------

  /** The named columns of one row are as expected. */
  predicate Agrees(db: Database, table: Table, u: Uuid, columns: seq<Column>, row: Row) {
    && u in RowsOf(db, table)
    && forall c :: c in columns ==> Cell(RowsOf(db, table)[u], u, c) == Cell(row, u, c)
  }

  /** A wait on one row passes exactly when the row is there and its columns agree. */
  lemma WaitMeansAgreement(db: Database, table: Table, u: Uuid, columns: seq<Column>, row: Row)
    requires forall c :: c in columns ==> c in row
    requires UUID_COLUMN !in columns
    ensures Perform(db, Wait(table, TheRow(u), columns, {Projection(row, u, columns)})).Done?
            <==> Agrees(db, table, u, columns, row)
  {
    var expected := Projection(row, u, columns);
    var actual := Projected(db, table, TheRow(u), columns);
    if u in RowsOf(db, table) {
      var found := Projection(RowsOf(db, table)[u], u, columns);
      assert Selected(db, table, TheRow(u)) == {u};
      assert actual == {found};
      if found == expected {
        forall c | c in columns
          ensures Cell(RowsOf(db, table)[u], u, c) == Cell(row, u, c)
        {
          assert c in expected && expected[c] == row[c] && c in found;
        }
      }
      if Agrees(db, table, u, columns, row) {
        assert found == expected;
      }
      assert {found} == {expected} ==> found == expected by { assert found in {found}; }
    } else {
      assert actual == {};
      assert expected in {expected};
    }
  }
}
