/** One OVSDB connection seen from both ends: what the server has been asked, what it has sent and
    not yet been read, and which view a monitor has to be told about (RFC 7047, sections 4.1.3,
    4.1.5 and 4.1.6). */
module Wires {
  import opened Basics
  import opened Ovsdb
  import opened Mapping

  // -- Monitored views --------------------------------------------------------------

  type Columns = map<Table, set<Column>>

  /** For every changed row its new contents in full, or nothing when it was removed. */
  type Updates = map<Table, map<Uuid, Option<Row>>>

  /** An absent optional value is monitored as the empty set. */
  function Seen(row: Row, columns: set<Column>): Row {
    map c | c in columns :: if c in row then row[c] else Atoms({})
  }

  function View(db: Database, columns: Columns): Database {
    map t: Table | t in columns :: map u: Uuid | u in RowsOf(db, t) :: Seen(RowsOf(db, t)[u], columns[t])
  }

  function DiffRows(a: Rows, b: Rows): map<Uuid, Option<Row>> {
    map u: Uuid | u in a.Keys + b.Keys && (u in a && u in b ==> a[u] != b[u]) :: if u in b then Some(b[u]) else None
  }

  function Diff(a: Database, b: Database): Updates {
    map t: Table | t in a.Keys + b.Keys && RowsOf(a, t) != RowsOf(b, t) :: DiffRows(RowsOf(a, t), RowsOf(b, t))
  }

  /** Tables without rows and absent tables are the same. */
  predicate Same(a: Database, b: Database) {
    forall t :: RowsOf(a, t) == RowsOf(b, t)
  }

  /** Every row of a monitored table has exactly the monitored columns. */
  predicate Formed(view: Database, columns: Columns) {
    && (forall t :: t in view ==> t in columns)
    && forall t, u :: t in view && u in view[t] ==> view[t][u].Keys == columns[t]
  }

  // -- Applying updates -----------------------------------------------------------------

  function MergeRows(rows: Rows, changes: map<Uuid, Option<Row>>, done: set<Uuid>): Rows {
    map u: Uuid | u in rows.Keys + done && !(u in done && u in changes && changes[u].None?) ::
      if u in done && u in changes && changes[u].Some? then (if u in rows then rows[u] else map[]) + changes[u].value
      else if u in rows then rows[u]
      else map[]
  }

  function Merge(base: Database, updates: Updates, done: set<Table>): Database {
    map t: Table | t in base.Keys + done ::
      if t in done && t in updates then MergeRows(RowsOf(base, t), updates[t], updates[t].Keys) else RowsOf(base, t)
  }

  lemma MergedRowOfDiff(a: Rows, b: Rows, columns: set<Column>, u: Uuid)
    requires u in a ==> a[u].Keys == columns
    requires u in b ==> b[u].Keys == columns
    ensures var merged := MergeRows(a, DiffRows(a, b), DiffRows(a, b).Keys);
            (u in merged <==> u in b) && (u in b ==> merged[u] == b[u])
  {
    var changes := DiffRows(a, b);
    if u in changes && u in b {
      var before: Row := if u in a then a[u] else map[];
      assert before + b[u] == b[u];
    }
  }

  lemma MergeRowsOfDiff(a: Rows, b: Rows, columns: set<Column>)
    requires forall u :: u in a ==> a[u].Keys == columns
    requires forall u :: u in b ==> b[u].Keys == columns
    ensures MergeRows(a, DiffRows(a, b), DiffRows(a, b).Keys) == b
  {
    hide MergeRows, DiffRows;
    forall u: Uuid
      ensures var merged := MergeRows(a, DiffRows(a, b), DiffRows(a, b).Keys);
              (u in merged <==> u in b) && (u in b ==> merged[u] == b[u])
    {
      MergedRowOfDiff(a, b, columns, u);
    }
  }

  /** Applying the difference between two views to the first gives the second. */
  lemma MergeOfDiff(cache: Database, a: Database, b: Database, columns: Columns)
    requires Same(cache, a) && Formed(a, columns) && Formed(b, columns)
    ensures Same(Merge(cache, Diff(a, b), Diff(a, b).Keys), b)
  {
    var updates := Diff(a, b);
    forall t: Table
      ensures RowsOf(Merge(cache, updates, updates.Keys), t) == RowsOf(b, t)
    {
      if t in updates {
        assert t in columns;
        MergeRowsOfDiff(RowsOf(a, t), RowsOf(b, t), columns[t]);
        assert RowsOf(Merge(cache, updates, updates.Keys), t)
            == MergeRows(RowsOf(cache, t), updates[t], updates[t].Keys);
      } else {
        assert RowsOf(a, t) == RowsOf(b, t);
      }
    }
  }

  lemma ViewFormed(db: Database, columns: Columns)
    ensures Formed(View(db, columns), columns)
  {
  }

  // -- The connection ---------------------------------------------------------------------

  datatype Schema = Schema(columns: Columns, qualified: bool)

  datatype Ask = GetSchema | Monitor(watch: Watch) | Operate(requests: seq<Request>)

  datatype Watch = Watch(id: nat, columns: Columns)

  datatype Call = Call(id: nat, ask: Ask)

  datatype Payload = TheSchema(schema: Schema) | Initial(updates: Updates) | Elements(elements: seq<Element>)

  datatype Message =
    | Answered(id: nat, payload: Payload)
    | Refused(id: nat)
    | Notice(monitor: nat, updates: Updates)
    | Chatter

  datatype Packet = Packet(message: Message, size: nat)

  datatype Execution = Execution(id: nat, before: Database, requests: seq<Request>, refusal: Option<string>) {
    function Outcome(): Outcome {
      Transact(before, requests, refusal)
    }
  }

  datatype Wire = Wire(
    conn: Option<nat>,           // identity of the live connection
    connections: nat,            // connections ever made
    schema: Schema,              // what the server at the other end offers
    calls: seq<Call>,            // sent and not yet handled by the server
    queue: seq<Packet>,          // sent by the server and not yet read
    watch: Option<Watch>,        // the monitor registered on this connection
    views: seq<Database>,        // what the monitor has had to show since, oldest first
    db: Database,
    executed: seq<Execution>)    // every transaction the server has handled

  /** What may happen outside the session between two reads. */
  datatype Act =
    | Write(db: Database, size: nat)
    | Serve(refusal: Option<string>, replyFirst: bool, size: nat)
    | Deny(size: nat)
    | Drop
    | Connect(schema: Schema)
    | Chat(size: nat)

  function Sent(w: Wire, message: Message, size: nat): Wire {
    w.(queue := w.queue + [Packet(message, size)])
  }

  /** The database changed: a monitor that shows something else is told the difference. */
  function Published(w: Wire, db: Database, size: nat): Wire {
    if w.watch.None? || w.views == [] then w.(db := db)
    else
      var shown, next := w.views[|w.views| - 1], View(db, w.watch.value.columns);
      if shown == next then w.(db := db)
      else Sent(w.(db := db, views := w.views + [next]), Notice(w.watch.value.id, Diff(shown, next)), size)
  }

  /** The server handles the oldest call. The session names its monitor after the generation, so
      a second monitor on one connection repeats an identifier and is refused. */
  function Served(w: Wire, refusal: Option<string>, replyFirst: bool, size: nat): Wire {
    if w.calls == [] then w
    else
      var id, rest := w.calls[0].id, w.(calls := w.calls[1..]);
      match w.calls[0].ask
      case GetSchema => Sent(rest, Answered(id, TheSchema(w.schema)), size)
      case Monitor(watch) =>
        if w.watch.Some? then Sent(rest, Refused(id), size)
        else
          var view := View(w.db, watch.columns);
          Sent(rest.(watch := Some(watch), views := [view]), Answered(id, Initial(Diff(map[], view))), size)
      case Operate(requests) =>
        var execution := Execution(id, w.db, requests, refusal);
        var outcome := execution.Outcome();
        var reply := Answered(id, Elements(OnWireAll(outcome.replies)));
        var done := rest.(executed := w.executed + [execution]);
        if replyFirst then Published(Sent(done, reply, size), outcome.db, size)
        else Sent(Published(done, outcome.db, size), reply, size)
  }

  function Dropped(w: Wire): Wire {
    w.(conn := None, calls := [], queue := [], watch := None, views := [])
  }

  function Acted(w: Wire, act: Act): Wire {
    match act
    case Write(db, size) => Published(w, db, size)
    case Serve(refusal, replyFirst, size) => Served(w, refusal, replyFirst, size)
    case Deny(size) => if w.calls == [] then w else Sent(w.(calls := w.calls[1..]), Refused(w.calls[0].id), size)
    case Drop => Dropped(w)
    case Connect(schema) =>
      if w.conn.Some? then w
      else w.(conn := Some(w.connections), connections := w.connections + 1, schema := schema)
    case Chat(size) => if w.conn.None? then w else Sent(w, Chatter, size)
  }

  function ActedAll(w: Wire, acts: seq<Act>): Wire
    decreases |acts|
  {
    if acts == [] then w else ActedAll(Acted(w, acts[0]), acts[1..])
  }

  // -- Invariants of a connection -----------------------------------------------------------

  /** Notices not yet read. */
  function Pending(queue: seq<Packet>): nat {
    if queue == [] then 0 else (if queue[0].message.Notice? then 1 else 0) + Pending(queue[1..])
  }

  /** The view that everything read so far describes. */
  function Position(w: Wire): int {
    |w.views| - 1 - Pending(w.queue)
  }

  predicate NoticeOk(w: Wire, i: nat)
    requires w.watch.Some? && i < |w.queue| && w.queue[i].message.Notice?
  {
    var k := |w.views| - 1 - Pending(w.queue[i..]);
    && 0 <= k < |w.views| - 1
    && w.queue[i].message == Notice(w.watch.value.id, Diff(w.views[k], w.views[k + 1]))
  }

  predicate InitialOk(w: Wire, i: nat)
    requires i < |w.queue|
  {
    w.queue[i].message.Answered? && w.queue[i].message.payload.Initial? ==>
      && w.watch.Some? && w.views != []
      && w.queue[i].message.payload.updates == Diff(map[], w.views[0])
      && Pending(w.queue[i + 1..]) == |w.views| - 1
  }

  /** Unread notices tell, in order, every step from the position to the newest view. */
  ghost predicate WireOk(w: Wire) {
    && (w.conn.None? ==> w.calls == [] && w.queue == [] && w.watch.None?)
    && (w.conn.Some? ==> w.conn.value < w.connections)
    && (w.watch.Some? ==>
          && 0 <= Position(w)
          && w.views[|w.views| - 1] == View(w.db, w.watch.value.columns)
          && forall v :: v in w.views ==> Formed(v, w.watch.value.columns))
    && (forall i :: 0 <= i < |w.queue| && w.queue[i].message.Notice? ==> w.watch.Some? && NoticeOk(w, i))
    && (forall i :: 0 <= i < |w.queue| ==> InitialOk(w, i))
  }

  lemma {:induction false} PendingAppend(queue: seq<Packet>, p: Packet)
    ensures Pending(queue + [p]) == Pending(queue) + (if p.message.Notice? then 1 else 0)
  {
    if queue == [] {
      assert queue + [p] == [p] && [p][1..] == [];
    } else {
      assert (queue + [p])[0] == queue[0] && (queue + [p])[1..] == queue[1..] + [p];
      PendingAppend(queue[1..], p);
    }
  }

  lemma {:induction false} PendingNone(queue: seq<Packet>)
    requires forall i :: 0 <= i < |queue| ==> !queue[i].message.Notice?
    ensures Pending(queue) == 0
  {
    if queue != [] {
      assert forall i :: 0 <= i < |queue[1..]| ==> queue[1..][i] == queue[i + 1];
      PendingNone(queue[1..]);
    }
  }

  lemma {:induction false} PendingSuffix(queue: seq<Packet>, i: nat)
    requires i <= |queue|
    ensures Pending(queue[i..]) <= Pending(queue)
  {
    if i == 0 {
      assert queue[0..] == queue;
    } else {
      assert queue[i..] == queue[1..][i - 1..];
      PendingSuffix(queue[1..], i - 1);
    }
  }

  /** Sending anything but a notice or an initial view disturbs nothing. */
  lemma SentKeeps(w: Wire, message: Message, size: nat)
    requires WireOk(w) && w.conn.Some?
    requires !message.Notice? && !(message.Answered? && message.payload.Initial?)
    ensures WireOk(Sent(w, message, size)) && Position(Sent(w, message, size)) == Position(w)
  {
    var p := Packet(message, size);
    var next := Sent(w, message, size);
    PendingAppend(w.queue, p);
    SuffixesAppend(w.queue, p);
    forall i | 0 <= i < |next.queue| && next.queue[i].message.Notice?
      ensures next.watch.Some? && NoticeOk(next, i)
    {
      assert NoticeOk(w, i);
    }
    forall i | 0 <= i < |next.queue|
      ensures InitialOk(next, i)
    {
      if i < |w.queue| {
        assert InitialOk(w, i);
      }
    }
  }

  lemma SuffixesAppend(queue: seq<Packet>, p: Packet)
    ensures forall i :: 0 <= i <= |queue| ==>
              Pending((queue + [p])[i..]) == Pending(queue[i..]) + (if p.message.Notice? then 1 else 0)
  {
    forall i | 0 <= i <= |queue|
      ensures Pending((queue + [p])[i..]) == Pending(queue[i..]) + (if p.message.Notice? then 1 else 0)
    {
      assert (queue + [p])[i..] == queue[i..] + [p];
      PendingAppend(queue[i..], p);
    }
  }

  lemma NoticeKeeps(w: Wire, db: Database, view: Database, size: nat)
    requires WireOk(w) && w.watch.Some? && w.views != []
    requires view == View(db, w.watch.value.columns) && Formed(view, w.watch.value.columns)
    ensures var next := Sent(w.(db := db, views := w.views + [view]),
                             Notice(w.watch.value.id, Diff(w.views[|w.views| - 1], view)), size);
            WireOk(next) && Position(next) == Position(w)
  {
    hide View, Diff, Formed, Pending;
    var p := Packet(Notice(w.watch.value.id, Diff(w.views[|w.views| - 1], view)), size);
    var next := Sent(w.(db := db, views := w.views + [view]), p.message, size);
    SuffixesAppend(w.queue, p);
    PendingAppend(w.queue, p);
    forall i | 0 <= i < |next.queue|
      ensures InitialOk(next, i)
      ensures next.queue[i].message.Notice? ==> NoticeOk(next, i)
    {
      if i < |w.queue| {
        OldPacket(w, db, view, p, i);
      } else {
        assert next.queue[i..] == [p] && Pending([p]) == 1 by { PendingAppend([], p); PendingNone([]); assert [] + [p] == [p]; }
      }
    }
  }

  lemma OldPacket(w: Wire, db: Database, view: Database, p: Packet, i: nat)
    requires WireOk(w) && w.watch.Some? && w.views != [] && i < |w.queue| && p.message.Notice?
    ensures var next := w.(db := db, views := w.views + [view], queue := w.queue + [p]);
            InitialOk(next, i) && (next.queue[i].message.Notice? ==> NoticeOk(next, i))
  {
    hide View, Diff, Formed, Pending;
    SuffixesAppend(w.queue, p);
    assert InitialOk(w, i);
    assert w.queue[i].message.Notice? ==> NoticeOk(w, i);
  }

  lemma PublishedKeeps(w: Wire, db: Database, size: nat)
    requires WireOk(w)
    ensures WireOk(Published(w, db, size))
    ensures w.watch.Some? ==> w.views <= Published(w, db, size).views && Position(Published(w, db, size)) == Position(w)
  {
    hide View, Diff, Formed, Pending, NoticeOk, InitialOk;
    if w.watch.Some? {
      ViewFormed(db, w.watch.value.columns);
      var shown, view := w.views[|w.views| - 1], View(db, w.watch.value.columns);
      if shown != view {
        NoticeKeeps(w, db, view, size);
      } else {
        SameQueue(w, w.(db := db));
      }
    } else {
      SameQueue(w, w.(db := db));
    }
  }

  lemma SameQueue(w: Wire, next: Wire)
    requires WireOk(w) && next.conn == w.conn && next.connections == w.connections
    requires next.queue == w.queue && next.watch == w.watch && next.views == w.views && next.schema == w.schema
    requires w.conn.None? ==> next.calls == []
    requires w.watch.Some? ==> View(next.db, w.watch.value.columns) == View(w.db, w.watch.value.columns)
    ensures WireOk(next) && Position(next) == Position(w)
  {
    hide View, Diff, Formed;
    forall i | 0 <= i < |next.queue|
      ensures InitialOk(next, i)
      ensures next.queue[i].message.Notice? ==> NoticeOk(next, i)
    {
      assert InitialOk(w, i);
    }
  }

  lemma MonitorKeeps(w: Wire, id: nat, watch: Watch, size: nat)
    requires WireOk(w) && w.conn.Some? && w.watch.None?
    ensures var view := View(w.db, watch.columns);
            WireOk(Sent(w.(watch := Some(watch), views := [view]), Answered(id, Initial(Diff(map[], view))), size))
  {
    hide View, Diff, Formed;
    var view := View(w.db, watch.columns);
    var p := Packet(Answered(id, Initial(Diff(map[], view))), size);
    var next := Sent(w.(watch := Some(watch), views := [view]), p.message, size);
    PendingNone(next.queue);
    ViewFormed(w.db, watch.columns);
    forall i | 0 <= i < |next.queue|
      ensures InitialOk(next, i)
    {
      if i < |w.queue| {
        assert InitialOk(w, i);
      } else {
        assert next.queue[i + 1..] == [];
      }
    }
  }

  lemma ServedKeeps(w: Wire, refusal: Option<string>, replyFirst: bool, size: nat)
    requires WireOk(w)
    ensures WireOk(Served(w, refusal, replyFirst, size))
    ensures w.watch.Some? ==>
              && w.views <= Served(w, refusal, replyFirst, size).views
              && Position(Served(w, refusal, replyFirst, size)) == Position(w)
  {
    hide WireOk, View, Diff, Published, Position, Transact, OnWireAll;
    if w.calls != [] {
      ConnectedWhenAsked(w);
      var id, rest := w.calls[0].id, w.(calls := w.calls[1..]);
      SameQueue(w, rest);
      match w.calls[0].ask
      case GetSchema => SentKeeps(rest, Answered(id, TheSchema(w.schema)), size);
      case Monitor(watch) =>
        if w.watch.Some? {
          SentKeeps(rest, Refused(id), size);
        } else {
          MonitorKeeps(rest, id, watch, size);
        }
      case Operate(requests) =>
        var execution := Execution(id, w.db, requests, refusal);
        var outcome := execution.Outcome();
        var reply := Answered(id, Elements(OnWireAll(outcome.replies)));
        var done := rest.(executed := w.executed + [execution]);
        SameQueue(rest, done);
        if replyFirst {
          SentKeeps(done, reply, size);
          PublishedKeeps(Sent(done, reply, size), outcome.db, size);
        } else {
          PublishedKeeps(done, outcome.db, size);
          PublishedLeaves(done, outcome.db, size);
          SentKeeps(Published(done, outcome.db, size), reply, size);
        }
    }
  }

  lemma ConnectedWhenAsked(w: Wire)
    requires WireOk(w) && (w.calls != [] || w.queue != [] || w.watch.Some?)
    ensures w.conn.Some?
  {
  }

  lemma PublishedLeaves(w: Wire, db: Database, size: nat)
    ensures var next := Published(w, db, size);
            && next.conn == w.conn && next.connections == w.connections && next.calls == w.calls
            && next.watch == w.watch && next.executed == w.executed && next.schema == w.schema
  {
  }

  // -- What the other side can do between two reads --------------------------------------------

  /** The same connection, with the same monitor; the monitor may only have seen more. */
  predicate Continues(w: Wire, next: Wire) {
    && w.connections <= next.connections
    && w.executed <= next.executed
    && (next.conn.Some? && next.conn == w.conn ==>
          && next.schema == w.schema
          && (w.watch.Some? ==> next.watch == w.watch && w.views <= next.views && Position(next) == Position(w)))
    && (next.conn.Some? && next.conn != w.conn ==> w.connections <= next.conn.value)
  }

  lemma ActKeeps(w: Wire, act: Act)
    requires WireOk(w)
    ensures WireOk(Acted(w, act)) && Continues(w, Acted(w, act))
  {
    hide View, Diff, Pending, NoticeOk, InitialOk, Published, Served, Transact, OnWireAll, Formed;
    match act
    case Write(db, size) =>
      PublishedKeeps(w, db, size);
      PublishedLeaves(w, db, size);
    case Serve(refusal, replyFirst, size) =>
      ServedKeeps(w, refusal, replyFirst, size);
      ServedLeaves(w, refusal, replyFirst, size);
    case Deny(size) =>
      if w.calls != [] {
        SameQueue(w, w.(calls := w.calls[1..]));
        SentKeeps(w.(calls := w.calls[1..]), Refused(w.calls[0].id), size);
      }
    case Drop =>
    case Connect(_) =>
      if w.conn.None? {
        assert WireOk(Acted(w, act));
      }
    case Chat(size) =>
      if w.conn.Some? {
        SentKeeps(w, Chatter, size);
      }
  }

  lemma ServedLeaves(w: Wire, refusal: Option<string>, replyFirst: bool, size: nat)
    ensures var next := Served(w, refusal, replyFirst, size);
            && next.conn == w.conn && next.connections == w.connections && w.executed <= next.executed
            && next.schema == w.schema && (w.watch.Some? ==> next.watch == w.watch)
  {
    hide View, Diff, Transact, OnWireAll;
  }

  lemma {:induction false} ActsKeep(w: Wire, acts: seq<Act>)
    requires WireOk(w)
    ensures WireOk(ActedAll(w, acts)) && Continues(w, ActedAll(w, acts))
    decreases |acts|
  {
    hide WireOk, Acted, Position;
    if acts != [] {
      ActKeeps(w, acts[0]);
      ActsKeep(Acted(w, acts[0]), acts[1..]);
      var middle, last := Acted(w, acts[0]), ActedAll(w, acts);
      if last.conn.Some? && last.conn == w.conn && middle.conn != w.conn {
        ConnectionBelow(w);
      }
    }
  }

  lemma ConnectionBelow(w: Wire)
    requires WireOk(w)
    ensures w.conn.Some? ==> w.conn.value < w.connections
  {
  }

  // -- Reading ----------------------------------------------------------------------------------

  function Popped(w: Wire): Wire
    requires w.queue != []
  {
    w.(queue := w.queue[1..])
  }

  lemma PopKeeps(w: Wire)
    requires WireOk(w) && w.queue != []
    ensures WireOk(Popped(w))
    ensures Position(Popped(w)) == Position(w) + (if w.queue[0].message.Notice? then 1 else 0)
  {
    hide View, Diff, Formed;
    var next := Popped(w);
    PendingSuffix(w.queue, 1);
    forall i | 0 <= i < |next.queue|
      ensures InitialOk(next, i)
      ensures next.queue[i].message.Notice? ==> NoticeOk(next, i)
    {
      assert next.queue[i..] == w.queue[i + 1..] && next.queue[i + 1..] == w.queue[i + 2..];
      assert InitialOk(w, i + 1);
      assert w.queue[i + 1].message.Notice? ==> NoticeOk(w, i + 1);
    }
  }

  /** What the next packet says: a notice is the next step from the position, an initial view is
      the first view with every later step still unread. */
  lemma HeadTells(w: Wire)
    requires WireOk(w) && w.queue != []
    ensures var message := w.queue[0].message;
            && (message.Notice? ==>
                  && w.watch.Some? && 0 <= Position(w) && Position(w) + 1 < |w.views|
                  && message == Notice(w.watch.value.id, Diff(w.views[Position(w)], w.views[Position(w) + 1])))
            && (message.Answered? && message.payload.Initial? ==>
                  && w.watch.Some? && w.views != [] && Position(Popped(w)) == 0
                  && message.payload.updates == Diff(map[], w.views[0]))
  {
    hide View, Diff, Formed;
    assert w.queue[0..] == w.queue;
    assert InitialOk(w, 0);
    assert w.queue[0].message.Notice? ==> NoticeOk(w, 0);
  }

  // -- Whose answer it is -------------------------------------------------------------------------

  /** The payload answers this question. */
  ghost predicate Suits(w: Wire, id: nat, payload: Payload, ask: Ask) {
    match ask
    case GetSchema => payload == TheSchema(w.schema)
    case Monitor(watch) => payload.Initial? && w.watch == Some(watch)
    case Operate(requests) =>
      exists e :: e in w.executed && e.id == id && e.requests == requests
                  && payload == Elements(OnWireAll(e.Outcome().replies))
  }

  /** Every trace of call `id` on the connection is a trace of this question. */
  ghost predicate Ours(w: Wire, id: nat, ask: Ask) {
    && (forall c :: c in w.calls && c.id == id ==> c.ask == ask)
    && (forall p :: p in w.queue && p.message.Answered? && p.message.id == id ==> Suits(w, id, p.message.payload, ask))
    && (forall e :: e in w.executed && e.id == id ==> ask == Operate(e.requests))
  }

  /** Call `id` has left no trace at all. */
  ghost predicate Untold(w: Wire, id: nat) {
    && (forall c :: c in w.calls ==> c.id != id)
    && (forall p :: p in w.queue && p.message.Answered? ==> p.message.id != id)
    && (forall e :: e in w.executed ==> e.id != id)
  }

  /** Call identifiers are below `bound`; no call is waiting twice, executed twice, waiting after
      it was executed, or refused while waiting or executed. */
  ghost predicate Distinct(w: Wire, bound: nat) {
    && (forall c :: c in w.calls ==> c.id < bound)
    && (forall e :: e in w.executed ==> e.id < bound)
    && (forall p :: p in w.queue && p.message.Answered? ==> p.message.id < bound)
    && (forall i, j :: 0 <= i < j < |w.calls| ==> w.calls[i].id != w.calls[j].id)
    && (forall i, j :: 0 <= i < j < |w.executed| ==> w.executed[i].id != w.executed[j].id)
    && (forall c, e :: c in w.calls && e in w.executed ==> c.id != e.id)
    && (forall p :: p in w.queue && p.message.Refused? ==> Unexecuted(w, p.message.id) && p.message.id < bound)
  }

  /** The server has not handled call `id` as a transaction and will not. */
  ghost predicate Unexecuted(w: Wire, id: nat) {
    && (forall c :: c in w.calls ==> c.id != id)
    && (forall e :: e in w.executed ==> e.id != id)
  }

  lemma PublishedTraces(w: Wire, db: Database, size: nat)
    ensures var next := Published(w, db, size);
            && next.calls == w.calls && next.executed == w.executed && next.watch == w.watch && next.schema == w.schema
            && (next.queue == w.queue || exists p: Packet :: p.message.Notice? && next.queue == w.queue + [p])
  {
    hide View, Diff;
    if w.watch.Some? && w.views != [] {
      var shown, next := w.views[|w.views| - 1], View(db, w.watch.value.columns);
      if shown != next {
        var p := Packet(Notice(w.watch.value.id, Diff(shown, next)), size);
        assert p.message.Notice? && Published(w, db, size).queue == w.queue + [p];
      }
    }
  }

  /** The one step that leaves a trace of a call: its handling. */
  lemma ServedTraces(w: Wire, refusal: Option<string>, replyFirst: bool, size: nat, id: nat, ask: Ask)
    requires WireOk(w) && w.calls != [] && Ours(w, id, ask)
    ensures Ours(Served(w, refusal, replyFirst, size), id, ask)
  {
    hide View, Diff, Transact, OnWireAll, Published, WireOk;
    var next := Served(w, refusal, replyFirst, size);
    var call, rest := w.calls[0], w.(calls := w.calls[1..]);
    assert call in w.calls;
    match call.ask
    case GetSchema =>
    case Monitor(watch) =>
      if w.watch.None? {
        NoAnswerBeforeMonitor(w, id, ask, watch);
      }
    case Operate(requests) =>
      var execution := Execution(call.id, w.db, requests, refusal);
      var reply := Packet(Answered(call.id, Elements(OnWireAll(execution.Outcome().replies))), size);
      var done := rest.(executed := w.executed + [execution]);
      assert execution in done.executed;
      PublishedTraces(done, execution.Outcome().db, size);
      PublishedTraces(Sent(done, reply.message, size), execution.Outcome().db, size);
      forall p | p in next.queue && p.message.Answered? && p.message.id == id
        ensures Suits(next, id, p.message.payload, ask)
      {
        if p in w.queue {
          SuitsLater(w, next, id, p.message.payload, ask);
        } else {
          assert p == reply;
        }
      }
  }

  lemma SuitsLater(w: Wire, next: Wire, id: nat, payload: Payload, ask: Ask)
    requires Suits(w, id, payload, ask) && w.executed <= next.executed && (ask.Monitor? ==> next.watch == w.watch)
    requires ask.GetSchema? ==> next.schema == w.schema
    ensures Suits(next, id, payload, ask)
  {
    if ask.Operate? {
      var e :| e in w.executed && e.id == id && e.requests == ask.requests
               && payload == Elements(OnWireAll(e.Outcome().replies));
      assert e in next.executed;
    }
  }

  lemma NoAnswerBeforeMonitor(w: Wire, id: nat, ask: Ask, watch: Watch)
    requires Ours(w, id, ask) && w.watch.None?
    ensures forall p :: p in w.queue && p.message.Answered? && p.message.id == id ==>
              Suits(w.(watch := Some(watch)), id, p.message.payload, ask)
  {
    forall p | p in w.queue && p.message.Answered? && p.message.id == id
      ensures Suits(w.(watch := Some(watch)), id, p.message.payload, ask)
    {
      assert Suits(w, id, p.message.payload, ask);
    }
  }

  lemma ServedDistinct(w: Wire, refusal: Option<string>, replyFirst: bool, size: nat, bound: nat)
    requires w.calls != [] && Distinct(w, bound)
    ensures Distinct(Served(w, refusal, replyFirst, size), bound)
  {
    hide View, Diff, Transact, OnWireAll, Published, Distinct;
    var next := Served(w, refusal, replyFirst, size);
    var call, rest := w.calls[0], w.(calls := w.calls[1..]);
    if call.ask.Operate? {
      var execution := Execution(call.id, w.db, call.ask.requests, refusal);
      var reply := Answered(call.id, Elements(OnWireAll(execution.Outcome().replies)));
      var done := rest.(executed := w.executed + [execution]);
      PublishedTraces(done, execution.Outcome().db, size);
      PublishedTraces(Sent(done, reply, size), execution.Outcome().db, size);
    }
    HandledDistinct(w, next, bound);
  }

  lemma HandledDistinct(w: Wire, next: Wire, bound: nat)
    requires w.calls != [] && Distinct(w, bound) && next.calls == w.calls[1..]
    requires next.executed == w.executed
          || exists e: Execution :: e.id == w.calls[0].id && next.executed == w.executed + [e]
    requires forall p :: p in next.queue ==>
               || p in w.queue || p.message.Notice? || p.message.Chatter?
               || (p.message.Answered? && p.message.id == w.calls[0].id)
               || (p.message.Refused? && p.message.id == w.calls[0].id && next.executed == w.executed)
    ensures Distinct(next, bound)
  {
    var call := w.calls[0];
    assert call in w.calls;
    assert forall c :: c in next.calls ==> c in w.calls && c.id != call.id;
    assert forall e :: e in next.executed ==> e in w.executed || e.id == call.id;
    assert forall e :: e in w.executed ==> e.id != call.id;
    forall i, j | 0 <= i < j < |next.executed|
      ensures next.executed[i].id != next.executed[j].id
    {
      assert next.executed[i] == w.executed[i];
      assert w.executed[i] in w.executed;
    }
    forall i, j | 0 <= i < j < |next.calls|
      ensures next.calls[i].id != next.calls[j].id
    {
      assert w.calls[i + 1].id != w.calls[j + 1].id;
    }
    forall p | p in next.queue && p.message.Refused?
      ensures Unexecuted(next, p.message.id) && p.message.id < bound
    {
      if p in w.queue {
        assert Unexecuted(w, p.message.id);
      }
    }
  }

  lemma ActTraces(w: Wire, act: Act, id: nat, ask: Ask, bound: nat)
    requires WireOk(w) && Ours(w, id, ask) && Distinct(w, bound)
    ensures Ours(Acted(w, act), id, ask) && Distinct(Acted(w, act), bound)
  {
    hide View, Diff, Transact, OnWireAll, Published, WireOk, Served;
    match act
    case Write(db, size) =>
      PublishedTraces(w, db, size);
      AppendTraces(w, Published(w, db, size), id, ask, bound);
    case Serve(refusal, replyFirst, size) =>
      if w.calls != [] {
        ServedTraces(w, refusal, replyFirst, size, id, ask);
        ServedDistinct(w, refusal, replyFirst, size, bound);
      } else {
        NothingServed(w, refusal, replyFirst, size);
      }
    case Deny(size) =>
      if w.calls != [] {
        AppendTraces(w, Acted(w, act), id, ask, bound);
      }
    case Drop =>
    case Connect(_) =>
      if w.queue != [] {
        ConnectedWhenAsked(w);
      }
      AppendTraces(w, Acted(w, act), id, ask, bound);
    case Chat(size) => AppendTraces(w, Acted(w, act), id, ask, bound);
  }

  lemma NothingServed(w: Wire, refusal: Option<string>, replyFirst: bool, size: nat)
    requires w.calls == []
    ensures Served(w, refusal, replyFirst, size) == w
  {
  }

  lemma AppendTraces(w: Wire, next: Wire, id: nat, ask: Ask, bound: nat)
    requires Ours(w, id, ask) && Distinct(w, bound)
    requires next.calls == w.calls || (w.calls != [] && next.calls == w.calls[1..])
    requires next.executed == w.executed && next.watch == w.watch && (next.schema == w.schema || w.queue == [])
    requires next.queue == w.queue
          || exists p: Packet :: next.queue == w.queue + [p] && !p.message.Answered?
                                 && (p.message.Refused? ==> w.calls != [] && next.calls == w.calls[1..] && p.message.id == w.calls[0].id)
    ensures Ours(next, id, ask) && Distinct(next, bound)
  {
    assert forall c :: c in next.calls ==> c in w.calls;
    forall p | p in next.queue && p.message.Answered?
      ensures p in w.queue
    {
    }
    forall p | p in next.queue && p.message.Answered? && p.message.id == id
      ensures Suits(next, id, p.message.payload, ask)
    {
      SuitsLater(w, next, id, p.message.payload, ask);
    }
  }

  lemma {:induction false} ActsTrace(w: Wire, acts: seq<Act>, id: nat, ask: Ask, bound: nat)
    requires WireOk(w) && Ours(w, id, ask) && Distinct(w, bound)
    ensures Ours(ActedAll(w, acts), id, ask) && Distinct(ActedAll(w, acts), bound)
    decreases |acts|
  {
    hide WireOk, Ours, Distinct, Acted, Continues;
    if acts != [] {
      ActTraces(w, acts[0], id, ask, bound);
      ActKeeps(w, acts[0]);
      ActsTrace(Acted(w, acts[0]), acts[1..], id, ask, bound);
    }
  }

  // -- What was written out ------------------------------------------------------------------------

  /** One transaction written out by the session, and the generation it was written in. */
  datatype Sending = Sending(id: nat, requests: seq<Request>, generation: nat)

  ghost predicate SentAs(sent: seq<Sending>, id: nat, requests: seq<Request>) {
    exists s :: s in sent && s.id == id && s.requests == requests
  }

  /** Whatever waits for the server or was executed by it had been written out, once. */
  ghost predicate Logged(w: Wire, sent: seq<Sending>, bound: nat) {
    && (forall c :: c in w.calls && c.ask.Operate? ==> SentAs(sent, c.id, c.ask.requests))
    && (forall e :: e in w.executed ==> SentAs(sent, e.id, e.requests))
    && (forall s :: s in sent ==> s.id < bound)
    && (forall i, j :: 0 <= i < j < |sent| ==> sent[i].id != sent[j].id)
  }

  lemma ActLogged(w: Wire, act: Act, sent: seq<Sending>, bound: nat)
    requires Logged(w, sent, bound)
    ensures Logged(Acted(w, act), sent, bound)
  {
    hide View, Diff, Transact, OnWireAll, Published, SentAs;
    match act
    case Write(db, size) => PublishedTraces(w, db, size);
    case Serve(refusal, replyFirst, size) =>
      if w.calls != [] && w.calls[0].ask.Operate? {
        var execution := Execution(w.calls[0].id, w.db, w.calls[0].ask.requests, refusal);
        var reply := Answered(w.calls[0].id, Elements(OnWireAll(execution.Outcome().replies)));
        var done := w.(calls := w.calls[1..], executed := w.executed + [execution]);
        PublishedTraces(done, execution.Outcome().db, size);
        PublishedTraces(Sent(done, reply, size), execution.Outcome().db, size);
      }
    case _ =>
  }

  lemma {:induction false} ActsLogged(w: Wire, acts: seq<Act>, sent: seq<Sending>, bound: nat)
    requires Logged(w, sent, bound)
    ensures Logged(ActedAll(w, acts), sent, bound)
    decreases |acts|
  {
    hide Logged, Acted;
    if acts != [] {
      ActLogged(w, acts[0], sent, bound);
      ActsLogged(Acted(w, acts[0]), acts[1..], sent, bound);
    }
  }
}
