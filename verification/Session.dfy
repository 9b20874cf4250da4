/** The OVSDB session: a monitor cache kept over reconnections, and requests whose outcome may stay
    unknown (opensync/session.py). */
module Sessions {
  import opened Basics
  import opened Ovsdb
  import opened Mapping
  import opened Submission
  import opened Wires

  /** One turn of the transport: what happened outside before the read, whether the connection then
      reports an error, whether shutdown was requested, and whether the peer certificate is the
      pinned one. */
  datatype Event = Event(acts: seq<Act>, failing: bool, stopping: bool, pinned: bool)

  /** How one request ends. */
  datatype Ending = Answer(payload: Payload) | Denied | Unsent | Silent | Failed(code: Reason)

  /** Everything the outside does during one synchronisation. */
  datatype Script = Script(
    connecting: seq<Event>, schemaFails: bool, asking: seq<Event>, monitorFails: bool, monitoring: seq<Event>,
    draining: nat -> Event)

  const DRAIN: nat := 128

  function Total(db: Database): nat {
    |RowsOf(db, AwlanNode)| + |RowsOf(db, RadioConfig)| + |RowsOf(db, RadioState)| + |RowsOf(db, VifConfig)|
    + |RowsOf(db, VifState)| + |RowsOf(db, Clients)|
  }

  predicate RowsAcceptable(valid: (Table, Row) -> bool, t: Table, merged: Rows, changes: map<Uuid, Option<Row>>) {
    forall u :: u in changes && changes[u].Some? ==> u in merged && valid(t, merged[u])
  }

  /** Every updated table is monitored, every row with new contents passes the schema, and the
      result keeps the row budget. */
  predicate Acceptable(
    valid: (Table, Row) -> bool, selected: Columns, rowLimit: nat, base: Database, updates: Updates)
  {
    && (forall t :: t in updates ==>
          && t in selected
          && RowsAcceptable(valid, t, MergeRows(RowsOf(base, t), updates[t], updates[t].Keys), updates[t]))
    && Total(Merge(base, updates, updates.Keys)) <= rowLimit
  }

  function MergedRow(rows: Rows, changes: map<Uuid, Option<Row>>, u: Uuid): Row
    requires u in changes && changes[u].Some?
  {
    (if u in rows then rows[u] else map[]) + changes[u].value
  }

  lemma MergeRowsStep(rows: Rows, changes: map<Uuid, Option<Row>>, done: set<Uuid>, u: Uuid)
    requires u in changes && u !in done
    ensures var before := MergeRows(rows, changes, done);
            && (u in before <==> u in rows) && (u in rows ==> before[u] == rows[u])
            && MergeRows(rows, changes, done + {u})
               == if changes[u].None? then before - {u} else before[u := MergedRow(rows, changes, u)]
  {
  }

  lemma MergeRowsEnds(rows: Rows, changes: map<Uuid, Option<Row>>)
    ensures MergeRows(rows, changes, {}) == rows
    ensures forall u :: u in changes && changes[u].Some? ==>
              u in MergeRows(rows, changes, changes.Keys)
              && MergeRows(rows, changes, changes.Keys)[u] == MergedRow(rows, changes, u)
  {
  }

  lemma MergeStep(base: Database, updates: Updates, done: set<Table>, t: Table)
    requires t in updates && t !in done
    ensures var before := Merge(base, updates, done);
            && RowsOf(before, t) == RowsOf(base, t)
            && Merge(base, updates, done + {t}) == before[t := MergeRows(RowsOf(base, t), updates[t], updates[t].Keys)]
  {
    hide MergeRows;
  }

  lemma MergeStart(base: Database, updates: Updates)
    ensures Merge(base, updates, {}) == base
  {
    hide MergeRows;
  }

  /** What a message handed on by a read tells about the question being asked. */
  ghost predicate Tells(w: Wire, message: Message, id: nat, ask: Ask) {
    match message
    case Answered(i, payload) =>
      i == id ==>
        && (ask.Operate? || w.conn.Some? ==> Suits(w, id, payload, ask))
        && (w.conn.Some? && payload.Initial? ==>
              && w.watch.Some? && w.views != [] && Position(w) == 0
              && payload.updates == Diff(map[], w.views[0]))
    case Refused(i) => Unexecuted(w, i)
    case _ => false
  }

  lemma DropTells(w: Wire, message: Message, id: nat, ask: Ask)
    requires Tells(w, message, id, ask)
    ensures Tells(Dropped(w), message, id, ask)
  {
    if message.Answered? && message.id == id && ask.Operate? {
      SuitsLater(w, Dropped(w), id, message.payload, ask);
    }
  }

  lemma TellsRefused(w: Wire, refused: nat, id: nat, ask: Ask)
    requires Tells(w, Refused(refused), id, ask)
    ensures Unexecuted(w, refused)
  {
  }

  lemma MonitorTells(w: Wire, id: nat, payload: Payload, watch: Watch)
    requires Tells(w, Answered(id, payload), id, Monitor(watch)) && w.conn.Some?
    ensures payload.Initial? && w.watch == Some(watch) && w.views != [] && Position(w) == 0
    ensures payload.updates == Diff(map[], w.views[0])
  {
  }

  lemma OperateTells(w: Wire, id: nat, payload: Payload, requests: seq<Request>, bound: nat)
    requires Tells(w, Answered(id, payload), id, Operate(requests)) && Distinct(w, bound)
    ensures payload.Elements?
    ensures exists e :: e in w.executed && e.id == id
    ensures forall e :: e in w.executed && e.id == id ==> Explained(Results(Some(payload.elements)), e, requests)
  {
    hide OnWireAll, Transact;
    var e :| e in w.executed && e.id == id && e.requests == requests
             && payload == Elements(OnWireAll(e.Outcome().replies));
    forall other | other in w.executed && other.id == id
      ensures other == e
    {
    }
  }

  /** An answer that leaves the outcome open can be had by any execution of these operations. */
  lemma OpenTells(w: Wire, id: nat, requests: seq<Request>, answer: Answer)
    requires OnlyExecutedAs(w, id, Operate(requests)) && (answer.Lost? || answer.PumpFailed?)
    ensures forall e :: e in w.executed && e.id == id ==> Explained(answer, e, requests)
  {
    hide Transact;
  }

  lemma SameSelf(a: Database)
    ensures Same(a, a)
  {
  }

  /** The execution is of these operations, and the answer is one that it can have. */
  ghost predicate Explained(answer: Answer, e: Execution, requests: seq<Request>) {
    e.requests == requests && Consistent(answer, e.before, requests, e.refusal, e.Outcome().db)
  }

  /** Nothing was written out, or this transaction once, in the wanted generation. */
  predicate WrittenOnce(
    before: seq<Sending>, after: seq<Sending>, id: nat, requests: seq<Request>, wanted: Option<nat>)
  {
    || after == before
    || (|after| == |before| + 1 && after[..|before|] == before && after[|before|].id == id
        && after[|before|].requests == requests && (wanted.Some? ==> after[|before|].generation == wanted.value))
  }

  /** However it ended, the server executed no other transaction under this identifier. */
  ghost predicate OnlyExecutedAs(w: Wire, id: nat, ask: Ask) {
    forall e :: e in w.executed && e.id == id ==> ask == Operate(e.requests)
  }

  lemma UntoldExecuted(w: Wire, id: nat)
    requires Untold(w, id)
    ensures forall e :: e in w.executed ==> e.id != id
  {
  }

  lemma UnexecutedMeans(w: Wire, id: nat)
    requires Unexecuted(w, id)
    ensures forall e :: e in w.executed ==> e.id != id
  {
  }

  lemma OursExecuted(w: Wire, id: nat, ask: Ask)
    requires Ours(w, id, ask)
    ensures OnlyExecutedAs(w, id, ask)
  {
  }

  /** The next packet to be read is over the message budget. */
  predicate Oversized(w: Wire, limit: nat) {
    w.queue != [] && w.queue[0].size > limit
  }

  /** While the connection lasts, what the other side does next makes the next packet oversized. */
  predicate Bursts(w: Wire, e: Event, limit: nat) {
    !e.stopping && ActedAll(w, e.acts).conn == w.conn && Oversized(ActedAll(w, e.acts), limit)
  }

  /** The turn runs on this connection without an error, and what it reads is within the budget. */
  predicate Runs(w: Wire, e: Event, limit: nat) {
    var met := ActedAll(w, e.acts);
    && w.conn.Some? && met.conn == w.conn && !e.stopping && !e.failing
    && (met.queue != [] ==> met.queue[0].size <= limit)
  }

  /** The turn brings the answer to call `id`. */
  predicate Replies(w: Wire, e: Event, limit: nat, id: nat) {
    var met := ActedAll(w, e.acts);
    Runs(w, e, limit) && met.queue != [] && met.queue[0].message.Answered? && met.queue[0].message.id == id
  }

  function ReplyOf(w: Wire, e: Event): Payload
    requires var met := ActedAll(w, e.acts); met.queue != [] && met.queue[0].message.Answered?
  {
    ActedAll(w, e.acts).queue[0].message.payload
  }

  /** The turn brings nothing that ends the wait for call `id` or changes the cache. */
  predicate Uneventful(w: Wire, e: Event, limit: nat, id: nat) {
    var met := ActedAll(w, e.acts);
    && Runs(w, e, limit)
    && (met.queue != [] ==>
          match met.queue[0].message
          case Answered(i, _) => i != id
          case Refused(i) => i != id
          case Chatter => true
          case Notice(_, _) => false)
  }

  function ReadFrom(w: Wire, e: Event): Wire {
    var met := ActedAll(w, e.acts);
    if met.queue == [] then met else Popped(met)
  }

  /** The connection after a number of turns that read what there is. */
  function Waited(w: Wire, events: seq<Event>, k: nat): Wire
    requires k <= |events|
  {
    if k == 0 then w else ReadFrom(Waited(w, events, k - 1), events[k - 1])
  }

  ghost predicate WaitedFor(w: Wire, events: seq<Event>, k: nat, limit: nat, id: nat)
    requires k <= |events|
  {
    forall i :: 0 <= i < k ==> Uneventful(Waited(w, events, i), events[i], limit, id)
  }

  /** The answer to call `id` comes with turn `k`, and nothing else before. */
  ghost predicate AnsweredAt(w: Wire, events: seq<Event>, k: nat, limit: nat, id: nat) {
    k < |events| && Replies(Waited(w, events, k), events[k], limit, id) && WaitedFor(w, events, k, limit, id)
  }

  /** The connection is lost with nothing left to read, or replaced by an acceptable one. */
  predicate Breaks(w: Wire, e: Event) {
    var met := ActedAll(w, e.acts);
    met.conn != w.conn && met.queue == [] && (met.conn.Some? ==> e.pinned)
  }

  /** The turn brings the refusal of call `id`. */
  predicate Refuses(w: Wire, e: Event, limit: nat, id: nat) {
    var met := ActedAll(w, e.acts);
    Runs(w, e, limit) && met.queue != [] && met.queue[0].message == Refused(id)
  }

  /** How a turn ends the wait for call `id`: stopping, or losing the connection, in silence; a stranger's
      certificate and an oversized packet with an error; an answer or a refusal as such, unless
      the fault hook discards it. */
  function TurnEnds(w: Wire, e: Event, limit: nat, id: nat, discard: bool): Option<Ending> {
    if e.stopping || Breaks(w, e) then Some(Silent)
    else if Unpinned(w.conn, ActedAll(w, e.acts), e.pinned) then Some(Failed(PreconditionFailed))
    else if Bursts(w, e, limit) then Some(Failed(NotReady))
    else if Replies(w, e, limit, id) then Some(if discard then Silent else Answer(ReplyOf(w, e)))
    else if Refuses(w, e, limit, id) then Some(if discard then Silent else Denied)
    else None
  }

  /** The wait ends so after `k` turns that brought nothing; at the end of the budget, in silence. */
  ghost predicate EndsAt(w: Wire, events: seq<Event>, k: nat, limit: nat, id: nat, discard: bool, ending: Ending) {
    && k <= |events| && WaitedFor(w, events, k, limit, id)
    && (if k == |events| then ending == Silent
        else TurnEnds(Waited(w, events, k), events[k], limit, id, discard) == Some(ending))
  }

  /** A view within the row budget, all of whose rows the schema accepts. */
  ghost predicate Admits(valid: (Table, Row) -> bool, rowLimit: nat, view: Database) {
    Total(view) <= rowLimit && forall t, u :: u in RowsOf(view, t) ==> valid(t, RowsOf(view, t)[u])
  }

  lemma SameTotal(a: Database, b: Database)
    requires Same(a, b)
    ensures Total(a) == Total(b)
  {
    assert RowsOf(a, AwlanNode) == RowsOf(b, AwlanNode) && RowsOf(a, RadioConfig) == RowsOf(b, RadioConfig);
    assert RowsOf(a, RadioState) == RowsOf(b, RadioState) && RowsOf(a, VifConfig) == RowsOf(b, VifConfig);
    assert RowsOf(a, VifState) == RowsOf(b, VifState) && RowsOf(a, Clients) == RowsOf(b, Clients);
  }

  /** The step from one view to an admissible one is acceptable. */
  lemma StepAcceptable(
    valid: (Table, Row) -> bool, columns: Columns, rowLimit: nat, cache: Database, a: Database, b: Database)
    requires Same(cache, a) && Formed(a, columns) && Formed(b, columns) && Admits(valid, rowLimit, b)
    ensures Acceptable(valid, columns, rowLimit, cache, Diff(a, b))
  {
    hide DiffRows, MergeRows, Merge, Total;
    var updates := Diff(a, b);
    MergeOfDiff(cache, a, b, columns);
    SameTotal(Merge(cache, updates, updates.Keys), b);
    forall t | t in updates
      ensures t in columns
      ensures RowsAcceptable(valid, t, MergeRows(RowsOf(cache, t), updates[t], updates[t].Keys), updates[t])
    {
      assert RowsOf(cache, t) == RowsOf(a, t);
      MergeRowsOfDiff(RowsOf(a, t), RowsOf(b, t), columns[t]);
      DiffHas(RowsOf(a, t), RowsOf(b, t));
    }
  }

  lemma DiffHas(a: Rows, b: Rows)
    ensures forall u :: u in DiffRows(a, b) && DiffRows(a, b)[u].Some? ==> u in b
  {
  }

  /** What is unread are updates within the message budget, and every view told of is admissible. */
  ghost predicate Calm(valid: (Table, Row) -> bool, rowLimit: nat, limit: nat, w: Wire) {
    && (forall p :: p in w.queue ==> p.message.Notice? && p.size <= limit)
    && forall v :: v in w.views ==> Admits(valid, rowLimit, v)
  }

  /** Nothing happens outside. */
  predicate Idle(e: Event) {
    e.acts == [] && !e.failing && !e.stopping
  }

  ghost predicate Quiet(draining: nat -> Event) {
    forall i: nat :: i < DRAIN ==> Idle(draining(i))
  }

  /** The connection once a synchronisation has read what it reads. */
  function Drained(w: Wire): Wire {
    w.(queue := Unread(w.queue, DRAIN + 1))
  }

  function Unread(queue: seq<Packet>, n: nat): seq<Packet> {
    if n <= |queue| then queue[n..] else []
  }

  /** No connection comes up and none is left. */
  predicate Offline(w: Wire, e: Event) {
    !e.stopping && ActedAll(w, e.acts).conn.None? && ActedAll(w, e.acts).queue == []
  }

  ghost predicate OfflineFor(w: Wire, events: seq<Event>, k: nat)
    requires k <= |events|
  {
    forall i :: 0 <= i < k ==> Offline(Waited(w, events, i), events[i])
  }

  /** The turn finds a connection, old or with an acceptable certificate, and nothing unread. */
  predicate Joins(w: Wire, connection: Option<nat>, e: Event) {
    var met := ActedAll(w, e.acts);
    && !e.stopping && !e.failing && met.conn.Some? && met.queue == [] && (met.conn == connection || e.pinned)
  }

  /** Turn `k` is the first to find a connection. */
  ghost predicate JoinsAt(w: Wire, connection: Option<nat>, events: seq<Event>, k: nat) {
    && k < |events| && OfflineFor(w, events, k)
    && Joins(Waited(w, events, k), if k == 0 then connection else None, events[k])
  }

  ghost predicate NoneJoins(w: Wire, connection: Option<nat>, events: seq<Event>, n: nat) {
    forall k :: 0 <= k < n ==> !JoinsAt(w, connection, events, k)
  }

  /** How the search for a connection goes on after turn `i`, or ends with it. */
  lemma JoinOrGoOn(w: Wire, connection: Option<nat>, events: seq<Event>, i: nat)
    requires i < |events| && NoneJoins(w, connection, events, i)
    ensures Waited(w, events, i + 1) == ReadFrom(Waited(w, events, i), events[i])
    ensures OfflineFor(w, events, i + 1) <==> OfflineFor(w, events, i) && Offline(Waited(w, events, i), events[i])
    ensures JoinsAt(w, connection, events, i) <==>
            OfflineFor(w, events, i) && Joins(Waited(w, events, i), if i == 0 then connection else None, events[i])
    ensures !JoinsAt(w, connection, events, i) ==> NoneJoins(w, connection, events, i + 1)
    ensures !(OfflineFor(w, events, i) && Offline(Waited(w, events, i), events[i])) ==>
              forall k :: 0 <= k && JoinsAt(w, connection, events, k) ==> k == i
  {
    hide Offline, Joins, ReadFrom;
  }

  lemma NothingTriedYet(w: Wire, connection: Option<nat>, events: seq<Event>)
    ensures NoneJoins(w, connection, events, 0) && OfflineFor(w, events, 0) && Waited(w, events, 0) == w
  {
  }

  lemma NoneJoinsAtAll(w: Wire, connection: Option<nat>, events: seq<Event>)
    requires NoneJoins(w, connection, events, |events|)
    ensures forall k :: 0 <= k ==> !JoinsAt(w, connection, events, k)
  {
  }

  function Asking(w: Wire, id: nat, ask: Ask): Wire {
    w.(calls := w.calls + [Call(id, ask)])
  }

  /** A new connection whose peer certificate is not the pinned one. */
  predicate Unpinned(before: Option<nat>, w: Wire, pinned: bool) {
    w.conn != before && w.conn.Some? && !pinned
  }

  function Common(wanted: Columns, offered: Columns): Columns {
    map t: Table | t in wanted && t in offered :: wanted[t] * offered[t]
  }

  /** A table is monitored exactly when it is wanted and the server has it, with exactly the wanted
      columns that the server has. */
  ghost predicate Chosen(selected: Columns, wanted: Columns, offered: Columns) {
    && (forall t :: t in selected <==> t in wanted && t in offered)
    && forall t, c :: t in selected ==> (c in selected[t] <==> c in wanted[t] && c in offered[t])
  }

  /** The tables have every row of the view, and no other, with all its monitored columns. */
  ghost predicate Shown(tables: Database, view: Database, columns: Columns) {
    forall t :: t in columns ==>
      && RowsOf(tables, t).Keys == RowsOf(view, t).Keys
      && forall u :: u in RowsOf(view, t) ==>
           RowsOf(tables, t)[u] == RowsOf(view, t)[u] && RowsOf(tables, t)[u].Keys == columns[t]
  }

  lemma CommonIsChosen(wanted: Columns, offered: Columns)
    ensures Chosen(Common(wanted, offered), wanted, offered)
  {
  }

  lemma SchemaTells(w: Wire, id: nat, payload: Payload)
    requires Tells(w, Answered(id, payload), id, GetSchema) && w.conn.Some?
    ensures payload == TheSchema(w.schema)
  {
  }

  function SchemaOf(payload: Payload): Option<Schema> {
    if payload.TheSchema? then Some(payload.schema) else None
  }

  function Unanswered(ending: Ending): (r: Awaited<bool>) {
    match ending
    case Denied => Raised(PreconditionFailed)
    case Failed(code) => Raised(code)
    case _ => Broken
  }

  lemma SameViews(w: Wire, next: Wire)
    requires next.views == w.views && next.queue == w.queue
    ensures Position(next) == Position(w)
  {
  }

  datatype Command =
    | Look(script: Script)
    | Submit(requests: seq<Request>, wanted: Option<nat>, script: Script, sendFails: bool, events: seq<Event>, discard: bool)
    | Reconnect

  /** A snapshot handed out: of which generation, and at which of the views the monitor went through. */
  datatype Sight = Sight(generation: nat, views: seq<Database>, position: int, tables: Database) {
    ghost predicate Faithful() {
      0 <= position < |views| && Same(tables, views[position])
    }
  }

  ghost predicate NotBefore(earlier: Sight, later: Sight) {
    && earlier.generation <= later.generation
    && (earlier.generation == later.generation ==> earlier.views <= later.views && earlier.position <= later.position)
  }

  /** A sight is of an earlier generation, or a prefix of what this connection shows now. */
  ghost predicate Past(sight: Sight, generation: nat, wire: Wire) {
    && sight.generation <= generation
    && (sight.generation == generation && wire.conn.Some? ==>
          wire.watch.Some? && sight.views <= wire.views && sight.position <= Position(wire))
  }

  lemma PastKept(sight: Sight, generation: nat, wire: Wire, generation': nat, wire': Wire)
    requires Past(sight, generation, wire) && generation <= generation'
    requires generation' == generation && wire'.conn.Some? ==>
               && wire'.conn == wire.conn
               && (wire.watch.Some? ==>
                     wire'.watch == wire.watch && wire.views <= wire'.views && Position(wire) <= Position(wire'))
    ensures Past(sight, generation', wire')
  {
    hide Position;
  }

  class OvsSession {
    const monitorColumns: Columns
    const valid: (Table, Row) -> bool
    const readOnly: bool
    const requestLimit: nat
    const messageLimit: nat
    const rowLimit: nat

    var wire: Wire
    var connection: Option<nat>
    var cache: Database
    var ready: bool
    var generation: nat
    var revision: nat
    var monitorId: Option<nat>
    var selected: Columns
    var inflight: nat
    var stopping: bool
    var nextCall: nat
    ghost var written: seq<Sending>  // every transaction written out so far

    /** The cache is the view at the position of the current connection's monitor. */
    ghost predicate Current()
      reads this
    {
      && wire.conn.Some? && connection == wire.conn
      && monitorId == Some(generation)
      && wire.watch == Some(Watch(generation, selected)) && Chosen(selected, monitorColumns, wire.schema.columns)
      && (wire.schema.qualified || readOnly)
      && 0 <= Position(wire) < |wire.views|
      && Same(cache, wire.views[Position(wire)])
    }

    ghost predicate Valid()
      reads this
    {
      && WireOk(wire) && Distinct(wire, nextCall) && Logged(wire, written, nextCall)
      && (connection.Some? ==> connection.value < wire.connections)
      && (wire.conn.Some? ==> connection == wire.conn)
      && (ready ==> Current())
      && Total(cache) <= rowLimit && inflight <= requestLimit
    }

    constructor (
      monitorColumns: Columns, valid: (Table, Row) -> bool, readOnly: bool, requestLimit: nat, messageLimit: nat,
      rowLimit: nat, schema: Schema, db: Database)
      ensures Valid() && !ready && generation == 0
    {
      this.monitorColumns, this.valid, this.readOnly := monitorColumns, valid, readOnly;
      this.requestLimit, this.messageLimit, this.rowLimit := requestLimit, messageLimit, rowLimit;
      wire := Wire(None, 0, schema, [], [], None, [], db, []);
      connection, cache, ready, generation, revision, monitorId := None, map[], false, 0, 0, None;
      selected, inflight, stopping, nextCall, written := map[], 0, false, 0, [];
    }

    /** A worker slot is taken before a request runs, and only while one is free. */
    method Enter() returns (r: Result<bool>)
      requires Valid()
      modifies this`inflight
      ensures Valid()
      ensures r == if stopping then Err(NotReady) else if old(inflight) < requestLimit then Ok(true) else Err(Busy)
      ensures inflight == old(inflight) + (if r.Ok? then 1 else 0)
    {
      hide WireOk, Distinct, Logged, Total, Same, Position;
      if stopping {
        return Err(NotReady);
      }
      if inflight >= requestLimit {
        return Err(Busy);
      }
      inflight := inflight + 1;
      r := Ok(true);
    }

    method Leave()
      requires Valid() && inflight > 0
      modifies this`inflight
      ensures Valid() && inflight == old(inflight) - 1
    {
      hide WireOk, Distinct, Logged, Total, Same, Position;
      inflight := inflight - 1;
    }

    method Invalidate()
      modifies this`ready, this`monitorId, this`wire
      ensures !ready && monitorId == None && wire == Dropped(old(wire))
    {
      ready, monitorId, wire := false, None, Dropped(wire);
    }

    /** The cache is replaced as a whole by the merged candidate, or not at all: then the
        connection is given up. */
    method Update(updates: Updates, initial: bool) returns (r: Result<bool>)
      modifies this`cache, this`revision, this`ready, this`monitorId, this`wire
      ensures r.Ok? ==> Total(cache) <= rowLimit
      ensures var base := if initial then map[] else old(cache);
              if Acceptable(valid, selected, rowLimit, base, updates) then
                && r == Ok(true) && cache == Merge(base, updates, updates.Keys) && revision == old(revision) + 1
                && ready == old(ready) && monitorId == old(monitorId) && wire == old(wire)
              else
                && r == Err(NotReady) && cache == old(cache) && revision == old(revision)
                && !ready && monitorId == None && wire == Dropped(old(wire))
    {
      hide Total, MergeRows, Merge, RowsAcceptable;
      ghost var base: Database := if initial then map[] else cache;
      var candidate: Database := if initial then map[] else cache;
      var todo := updates.Keys;
      MergeStart(base, updates);
      assert updates.Keys - todo == {};
      while todo != {}
        invariant todo <= updates.Keys
        invariant candidate == Merge(base, updates, updates.Keys - todo)
        invariant forall t :: t in updates.Keys - todo ==>
                    && t in selected
                    && RowsAcceptable(valid, t, MergeRows(RowsOf(base, t), updates[t], updates[t].Keys), updates[t])
        invariant cache == old(cache) && revision == old(revision) && ready == old(ready)
        invariant monitorId == old(monitorId) && wire == old(wire)
      {
        var t :| t in todo;
        if t !in selected {
          Invalidate();
          return Err(NotReady);
        }
        ghost var done := updates.Keys - todo;
        MergeStep(base, updates, done, t);
        var target := MergeTable(t, RowsOf(candidate, t), updates[t]);
        if target.None? {
          Invalidate();
          return Err(NotReady);
        }
        candidate := candidate[t := target.value];
        todo := todo - {t};
        assert updates.Keys - todo == done + {t};
      }
      assert updates.Keys - todo == updates.Keys;
      if Total(candidate) > rowLimit {
        Invalidate();
        return Err(NotReady);
      }
      cache := candidate;
      revision := revision + 1;
      r := Ok(true);
    }

    /** Row by row: removals, and new contents validated once merged. */
    method MergeTable(t: Table, rows: Rows, changes: map<Uuid, Option<Row>>) returns (r: Option<Rows>)
      ensures var merged := MergeRows(rows, changes, changes.Keys);
              r == if RowsAcceptable(valid, t, merged, changes) then Some(merged) else None
    {
      hide MergeRows;
      var target := rows;
      var todo := changes.Keys;
      MergeRowsEnds(rows, changes);
      assert changes.Keys - todo == {};
      while todo != {}
        invariant todo <= changes.Keys
        invariant target == MergeRows(rows, changes, changes.Keys - todo)
        invariant forall u :: u in changes.Keys - todo && changes[u].Some? ==> valid(t, MergedRow(rows, changes, u))
      {
        var u :| u in todo;
        ghost var done := changes.Keys - todo;
        MergeRowsStep(rows, changes, done, u);
        todo := todo - {u};
        assert changes.Keys - todo == done + {u};
        if changes[u].None? {
          target := target - {u};
        } else {
          var row := (if u in target then target[u] else map[]) + changes[u].value;
          if !valid(t, row) {
            return None;
          }
          target := target[u := row];
        }
      }
      assert changes.Keys - todo == changes.Keys;
      r := Some(target);
    }

    // -- Pumping ----------------------------------------------------------------------------

    /** Time passes: generations only grow, and while the connection lasts so do its monitor's
        views and the position of this end in them. */
    twostate predicate Onward()
      reads this
    {
      && old(generation) <= generation && old(nextCall) <= nextCall
      && old(wire).executed <= wire.executed
      && (generation == old(generation) && wire.conn.Some? ==>
            && connection == old(connection) && wire.conn == old(wire).conn && wire.schema == old(wire).schema
            && (old(wire).watch.Some? ==>
                  wire.watch == old(wire).watch && old(wire).views <= wire.views && old(Position(wire)) <= Position(wire)))
    }

    twostate predicate Undisturbed()
      reads this
    {
      && selected == old(selected) && nextCall == old(nextCall) && inflight == old(inflight)
      && written == old(written) && (ready ==> old(ready))
      && (generation == old(generation) && wire.conn.Some? ==> ready == old(ready) && monitorId == old(monitorId))
    }

    /** The transport runs; another connection than before begins a new generation. */
    method Turn(acts: seq<Act>, ghost id: nat, ghost ask: Ask) returns (switched: bool)
      requires Valid() && Ours(wire, id, ask)
      modifies this
      ensures Valid() && Ours(wire, id, ask) && Onward() && Undisturbed()
      ensures connection == wire.conn && wire == ActedAll(old(wire), acts)
      ensures generation == old(generation) + if switched && wire.conn.Some? then 1 else 0
      ensures !switched ==> ready == old(ready) && monitorId == old(monitorId)
      ensures switched <==> wire.conn != old(connection)
      ensures switched ==> !ready
      ensures stopping == old(stopping) && cache == old(cache) && revision == old(revision)
    {
      hide WireOk, Distinct, Logged, Ours, ActedAll, Position, Total, Same;
      ActsKeep(wire, acts);
      ActsTrace(wire, acts, id, ask, nextCall);
      ActsLogged(wire, acts, written, nextCall);
      wire := ActedAll(wire, acts);
      ConnectionBelow(wire);
      switched := wire.conn != connection;
      if switched {
        connection, ready, monitorId := wire.conn, false, None;
        if wire.conn.Some? {
          generation := generation + 1;
        }
      }
    }

    lemma DropIsFine(id: nat, ask: Ask)
      requires WireOk(wire) && Distinct(wire, nextCall) && Logged(wire, written, nextCall) && Ours(wire, id, ask)
      ensures WireOk(Dropped(wire)) && Distinct(Dropped(wire), nextCall) && Logged(Dropped(wire), written, nextCall)
      ensures Ours(Dropped(wire), id, ask)
    {
      hide SentAs;
    }

    lemma PopIsFine(id: nat, ask: Ask)
      requires WireOk(wire) && wire.queue != [] && Distinct(wire, nextCall) && Ours(wire, id, ask)
      requires Logged(wire, written, nextCall)
      ensures WireOk(Popped(wire)) && Distinct(Popped(wire), nextCall) && Ours(Popped(wire), id, ask)
      ensures Logged(Popped(wire), written, nextCall)
      ensures var message := wire.queue[0].message;
              message.Answered? || message.Refused? ==> Tells(Popped(wire), message, id, ask)
      ensures Position(Popped(wire)) == Position(wire) + (if wire.queue[0].message.Notice? then 1 else 0)
    {
      hide Diff, View, Pending, NoticeOk, InitialOk, SentAs;
      PopKeeps(wire);
      HeadTells(wire);
      assert wire.queue[0] in wire.queue;
      assert forall p :: p in wire.queue[1..] ==> p in wire.queue;
      forall p | p in Popped(wire).queue && p.message.Answered? && p.message.id == id
        ensures Suits(Popped(wire), id, p.message.payload, ask)
      {
        SuitsLater(wire, Popped(wire), id, p.message.payload, ask);
      }
      if wire.queue[0].message.Answered? && wire.queue[0].message.id == id {
        SuitsLater(wire, Popped(wire), id, wire.queue[0].message.payload, ask);
      }
    }

    lemma NoticeApplies()
      requires WireOk(wire) && wire.queue != [] && wire.queue[0].message.Notice? && wire.watch.Some?
      requires 0 <= Position(wire) < |wire.views| && Same(cache, wire.views[Position(wire)])
      ensures wire.queue[0].message.monitor == wire.watch.value.id
      ensures Position(wire) + 1 < |wire.views|
      ensures var updates := wire.queue[0].message.updates;
              Same(Merge(cache, updates, updates.Keys), wire.views[Position(wire) + 1])
    {
      hide Diff, Merge, Same, Pending, View, NoticeOk, InitialOk, Formed, Position;
      HeadTells(wire);
      var a, b := wire.views[Position(wire)], wire.views[Position(wire) + 1];
      assert a in wire.views && b in wire.views;
      MergeOfDiff(cache, a, b, wire.watch.value.columns);
    }

    /** The connection was ended with the cache as it was, and the session is not ready. */
    twostate predicate GivenUp()
      reads this
    {
      !ready && monitorId == None && wire.conn.None? && cache == old(cache) && revision == old(revision)
    }

    /** At most one update went in, and the cache changes only with its revision. */
    twostate predicate Absorbed()
      reads this
    {
      old(revision) <= revision <= old(revision) + 1 && (revision == old(revision) ==> cache == old(cache))
    }

    /** What becomes of one packet within the budget: the current monitor's acceptable update goes into the
        cache and an unacceptable one is an error; an answer is handed on and leaves the cache
        alone; anything else is dropped. */
    twostate predicate Took(message: Message, new r: Result<Option<Message>>)
      reads this
    {
      match message
      case Notice(monitor, updates) =>
        if Some(monitor) != old(monitorId) then r == Ok(None) && cache == old(cache) && revision == old(revision)
        else if Acceptable(valid, old(selected), rowLimit, old(cache), updates) then
          r == Ok(None) && cache == Merge(old(cache), updates, updates.Keys) && revision == old(revision) + 1
        else r == Err(NotReady)
      case Chatter => r == Ok(None) && cache == old(cache) && revision == old(revision)
      case _ => r == Ok(Some(message)) && cache == old(cache) && revision == old(revision)
    }

    /** The cache is one step behind what has been read, and this update is that step. */
    ghost predicate Behind(monitor: nat, updates: Updates)
      reads this
    {
      && wire.conn.Some? && connection == wire.conn && monitorId == Some(generation) == Some(monitor)
      && wire.watch == Some(Watch(generation, selected)) && Chosen(selected, monitorColumns, wire.schema.columns)
      && (wire.schema.qualified || readOnly)
      && 0 <= Position(wire) < |wire.views|
      && Same(Merge(cache, updates, updates.Keys), wire.views[Position(wire)])
    }

    /** A notice is for the current monitor, or it is dropped. */
    method Absorb(monitor: nat, updates: Updates, ghost id: nat, ghost ask: Ask) returns (r: Result<Option<Message>>)
      requires WireOk(wire) && Distinct(wire, nextCall) && Logged(wire, written, nextCall) && Ours(wire, id, ask)
      requires connection.Some? ==> connection.value < wire.connections
      requires wire.conn.Some? ==> connection == wire.conn
      requires Total(cache) <= rowLimit && inflight <= requestLimit && (ready ==> Behind(monitor, updates))
      modifies this`cache, this`revision, this`ready, this`monitorId, this`wire
      ensures Valid() && Ours(wire, id, ask) && (ready ==> old(ready)) && wire.executed == old(wire).executed
      ensures Took(Notice(monitor, updates), r)
      ensures r.Err? ==> GivenUp() && wire == Dropped(old(wire))
      ensures r.Ok? ==> wire == old(wire) && ready == old(ready) && monitorId == old(monitorId)
    {
      hide WireOk, Distinct, Logged, Ours, Position, Total, Same, Merge, Acceptable, Chosen;
      if Some(monitor) == monitorId {
        DropIsFine(id, ask);
        var applied := Update(updates, false);
        if applied.Err? {
          return Err(NotReady);
        }
      }
      r := Ok(None);
    }

    /** The oldest packet leaves the queue; a transport error seen with it ends the connection. */
    method Take(failing: bool, ghost id: nat, ghost ask: Ask) returns (packet: Packet)
      requires Valid() && Ours(wire, id, ask) && wire.queue != [] && connection == wire.conn
      modifies this`ready, this`wire
      ensures WireOk(wire) && Distinct(wire, nextCall) && Logged(wire, written, nextCall) && Ours(wire, id, ask)
      ensures connection.Some? ==> connection.value < wire.connections
      ensures packet == old(wire).queue[0] && wire == if failing then Dropped(Popped(old(wire))) else Popped(old(wire))
      ensures ready == (old(ready) && !failing)
      ensures ready && packet.message.Notice? ==> Behind(packet.message.monitor, packet.message.updates)
      ensures ready && !packet.message.Notice? ==> Current()
      ensures packet.message.Answered? || packet.message.Refused? ==> Tells(wire, packet.message, id, ask)
      ensures Onward()
    {
      hide WireOk, Distinct, Logged, Ours, Position, Total, Same, Diff, Merge, Acceptable, Tells, Chosen;
      ConnectedWhenAsked(wire);
      PopIsFine(id, ask);
      if ready && wire.queue[0].message.Notice? {
        NoticeApplies();
      }
      packet := wire.queue[0];
      wire := Popped(wire);
      if failing {
        DropIsFine(id, ask);
        if packet.message.Answered? || packet.message.Refused? {
          DropTells(wire, packet.message, id, ask);
        }
        ready, wire := false, Dropped(wire);
      }
    }

    /** The oldest unread packet is taken and interpreted; one over the message budget is not looked
        into: the connection ends and the cache stays as it was. */
    method Read(failing: bool, ghost id: nat, ghost ask: Ask) returns (r: Result<Option<Message>>)
      requires Valid() && Ours(wire, id, ask) && wire.queue != [] && connection == wire.conn
      modifies this
      ensures Valid() && Ours(wire, id, ask) && Onward() && Undisturbed() && stopping == old(stopping)
      ensures connection == old(connection) && generation == old(generation)
      ensures old(wire).queue[0].size > messageLimit ==> r == Err(NotReady)
      ensures old(wire).queue[0].size <= messageLimit ==> Took(old(wire).queue[0].message, r)
      ensures r.Ok? ==> wire == if failing then Dropped(Popped(old(wire))) else Popped(old(wire))
      ensures r.Ok? ==> monitorId == old(monitorId) && ready == (old(ready) && !failing)
      ensures wire.executed == old(wire).executed
      ensures r.Err? ==> GivenUp()
      ensures Absorbed()
      ensures r.Ok? && r.value.Some? ==>
                (r.value.value.Answered? || r.value.value.Refused?) && Tells(wire, r.value.value, id, ask)
    {
      hide WireOk, Distinct, Logged, Ours, Position, Total, Same, Diff, Merge, Acceptable, Tells, Chosen, Behind;
      var packet := Take(failing, id, ask);
      if packet.size > messageLimit {
        DropIsFine(id, ask);
        Invalidate();
        return Err(NotReady);
      }
      match packet.message {
        case Notice(monitor, updates) => r := Absorb(monitor, updates, id, ask);
        case Chatter => r := Ok(None);
        case Answered(_, _) => r := Ok(Some(packet.message));
        case Refused(_) => r := Ok(Some(packet.message));
      }
    }

    /** After a turn on this connection: nothing unread is no news; otherwise one packet was taken, for what
        it is when the connection is not a new one. */
    twostate predicate Pumped(met: Wire, failing: bool, new r: Result<Option<Message>>)
      reads this
    {
      && connection == met.conn && (met.conn != old(connection) ==> !ready)
      && generation == old(generation) + (if met.conn != old(connection) && met.conn.Some? then 1 else 0)
      && (met.queue == [] ==>
            && r == Ok(None) && cache == old(cache) && revision == old(revision)
            && wire == (if met.conn.Some? && failing then Dropped(met) else met))
      && (met.queue != [] && r.Ok? ==> wire == if failing then Dropped(Popped(met)) else Popped(met))
      && (met.queue != [] && met.queue[0].size <= messageLimit && met.conn == old(connection) ==>
            Took(met.queue[0].message, r))
      && (met.conn == old(connection) && r.Ok? ==>
            monitorId == old(monitorId) && ready == (old(ready) && !(failing && met.conn.Some?)))
    }

    /** One read. Only answers are handed on; the current monitor's notices go into the cache, and
        whatever cannot be accepted ends the connection. */
    method Pump(e: Event, ghost id: nat, ghost ask: Ask) returns (r: Result<Option<Message>>)
      requires Valid() && Ours(wire, id, ask)
      modifies this
      ensures Valid() && Ours(wire, id, ask) && Onward() && Undisturbed() && stopping == old(stopping)
      ensures wire.executed == ActedAll(old(wire), e.acts).executed
      ensures !Unpinned(old(connection), ActedAll(old(wire), e.acts), e.pinned) ==>
                Pumped(ActedAll(old(wire), e.acts), e.failing, r)
      ensures Unpinned(old(connection), ActedAll(old(wire), e.acts), e.pinned) ==> r == Err(PreconditionFailed)
      ensures (var met := ActedAll(old(wire), e.acts);
               Oversized(met, messageLimit) && !Unpinned(old(connection), met, e.pinned)) ==> r == Err(NotReady)
      ensures r.Err? ==> GivenUp()
      ensures Absorbed()
      ensures r.Ok? && r.value.Some? ==>
                (r.value.value.Answered? || r.value.value.Refused?) && Tells(wire, r.value.value, id, ask)
    {
      hide WireOk, Distinct, Logged, Ours, ActedAll, Position, Total, Same, Diff, Merge, Acceptable, Tells;
      var switched := Turn(e.acts, id, ask);
      if switched && connection.Some? && !e.pinned {
        DropIsFine(id, ask);
        Invalidate();
        return Err(PreconditionFailed);
      }
      if wire.queue == [] {
        if wire.conn.Some? && e.failing {
          DropIsFine(id, ask);
          ready, wire := false, Dropped(wire);
        }
        return Ok(None);
      }
      ConnectedWhenAsked(wire);
      r := Read(e.failing, id, ask);
    }

    // -- Requests -------------------------------------------------------------------------------

    lemma AnewIsOurs(ask: Ask)
      requires Distinct(wire, nextCall)
      ensures Ours(wire, nextCall, ask) && Untold(wire, nextCall)
    {
      hide Unexecuted;
    }

    /** Writing a new question out keeps what is known of the connection. */
    lemma AskingIsFine(ask: Ask)
      requires WireOk(wire) && Distinct(wire, nextCall)
      ensures Distinct(wire, nextCall + 1)
      ensures Ours(Asking(wire, nextCall, ask), nextCall, ask) && Distinct(Asking(wire, nextCall, ask), nextCall + 1)
      ensures wire.conn.Some? ==> WireOk(Asking(wire, nextCall, ask))
    {
      AskingIsOurs(ask);
      if wire.conn.Some? {
        hide Distinct, Ours;
        SameQueue(wire, Asking(wire, nextCall, ask));
      }
    }

    lemma AskingIsOurs(ask: Ask)
      requires Distinct(wire, nextCall)
      ensures Distinct(wire, nextCall + 1)
      ensures Ours(Asking(wire, nextCall, ask), nextCall, ask) && Distinct(Asking(wire, nextCall, ask), nextCall + 1)
    {
    }

    lemma AnewIsLogged(ask: Ask)
      requires Logged(wire, written, nextCall)
      ensures var asked := Asking(wire, nextCall, ask);
              Logged(asked, if ask.Operate? then written + [Sending(nextCall, ask.requests, generation)] else written, nextCall + 1)
      ensures Logged(wire, written, nextCall + 1)
    {
      if ask.Operate? {
        var more := written + [Sending(nextCall, ask.requests, generation)];
        forall id, requests | SentAs(written, id, requests)
          ensures SentAs(more, id, requests)
        {
          var s :| s in written && s.id == id && s.requests == requests;
          assert s in more;
        }
        assert more[|written|] in more && SentAs(more, nextCall, ask.requests);
      }
    }

    /** Writing the question out; nothing is written without a connection. */
    method Send(ask: Ask, sendFails: bool) returns (sent: bool)
      requires Valid()
      modifies this`wire, this`nextCall, this`written
      ensures Valid() && nextCall == old(nextCall) + 1 && Onward()
      ensures written == if sent && ask.Operate? then old(written) + [Sending(old(nextCall), ask.requests, generation)]
                         else old(written)
      ensures sent <==> !sendFails && wire.conn.Some?
      ensures wire == if sent then Asking(old(wire), old(nextCall), ask) else old(wire)
      ensures wire.conn == old(wire).conn
      ensures Ours(wire, old(nextCall), ask) && (!sent ==> Untold(wire, old(nextCall)))
    {
      hide WireOk, Distinct, Logged, Ours, Position, Total, Same, Untold;
      AnewIsOurs(ask);
      AskingIsFine(ask);
      AnewIsLogged(ask);
      var call := nextCall;
      nextCall := nextCall + 1;
      sent := !sendFails && wire.conn.Some?;
      if sent {
        if ask.Operate? {
          written := written + [Sending(call, ask.requests, generation)];
        }
        wire := Asking(wire, call, ask);
        SameViews(old(wire), wire);
      }
    }

    /** One request: sent, then pumped for until its answer, a lost connection, an error or the
        deadline. An answer is handed back only on the connection the question went out on. */
    method Request(ask: Ask, sendFails: bool, events: seq<Event>, discard: bool) returns (r: Ending, ghost id: nat)
      requires Valid()
      modifies this
      ensures Valid() && Onward() && selected == old(selected) && inflight == old(inflight)
      ensures ready ==> old(ready)
      ensures id == old(nextCall) && nextCall == id + 1
      ensures r.Unsent? <==> sendFails || old(wire).conn.None?
      ensures r.Unsent? ==> Untold(wire, id)
      ensures written == if ask.Operate? && !r.Unsent? then old(written) + [Sending(id, ask.requests, old(generation))]
                         else old(written)
      ensures (!sendFails && old(wire).conn.Some? && !old(stopping) && events != []
               && Bursts(Asking(old(wire), id, ask), events[0], messageLimit)) ==>
                r == Failed(NotReady) && wire.executed == ActedAll(Asking(old(wire), id, ask), events[0].acts).executed
      ensures forall k :: 0 <= k && !r.Unsent? && !old(stopping) && !discard
                          && AnsweredAt(Asking(old(wire), id, ask), events, k, messageLimit, id) ==>
                var then_ := Waited(Asking(old(wire), id, ask), events, k);
                r == Answer(ReplyOf(then_, events[k])) && Untouched(ReadFrom(then_, events[k]))
      ensures !r.Unsent? && !old(stopping) ==>
                forall k: nat, ending :: EndsAt(Asking(old(wire), id, ask), events, k, messageLimit, id, discard, ending) ==>
                                           r == ending
      ensures Ours(wire, id, ask)
      ensures r.Failed? ==> !ready
      ensures r.Denied? ==> Unexecuted(wire, id)
      ensures r.Answer? ==>
                && generation == old(generation) && wire.conn.Some?
                && ready == old(ready) && monitorId == old(monitorId)
                && Tells(wire, Answered(id, r.payload), id, ask)
    {
      hide WireOk, Distinct, Logged, Ours, Position, Total, Same, Tells, Untold, Unexecuted, Uneventful, ReadFrom, ActedAll,
        Replies, ReplyOf, Waited, AnsweredAt, EndsAt, Bursts;
      id := nextCall;
      var call := nextCall;
      var sent := Send(ask, sendFails);
      if !sent {
        return Unsent, id;
      }
      r := Wait(events, discard, call, ask);
    }

    /** Turn by turn until something ends the wait; at the end of the budget the connection is given up. */
    method Wait(events: seq<Event>, discard: bool, id: nat, ghost ask: Ask) returns (r: Ending)
      requires Valid() && Ours(wire, id, ask) && wire.conn.Some?
      modifies this
      ensures Valid() && Ours(wire, id, ask) && Onward() && Undisturbed()
      ensures !r.Unsent?
      ensures !old(stopping) && events != [] && Bursts(old(wire), events[0], messageLimit) ==>
                r == Failed(NotReady) && wire.executed == ActedAll(old(wire), events[0].acts).executed
      ensures !old(stopping) && !discard ==>
                forall k :: 0 <= k && AnsweredAt(old(wire), events, k, messageLimit, id) ==>
                  var then_ := Waited(old(wire), events, k);
                  r == Answer(ReplyOf(then_, events[k])) && Untouched(ReadFrom(then_, events[k]))
      ensures !old(stopping) ==>
                forall k: nat, ending :: EndsAt(old(wire), events, k, messageLimit, id, discard, ending) ==> r == ending
      ensures r.Failed? ==> !ready
      ensures r.Denied? ==> Unexecuted(wire, id)
      ensures r.Answer? ==>
                && generation == old(generation) && wire.conn.Some?
                && Tells(wire, Answered(id, r.payload), id, ask)
    {
      hide WireOk, Distinct, Logged, Ours, Position, Total, Same, Tells, Untold, Unexecuted, Uneventful, ReadFrom, ActedAll,
        Replies, ReplyOf, Bursts, TurnEnds;
      ghost var asked := wire;
      for i := 0 to |events|
        invariant Valid() && Ours(wire, id, ask) && Onward() && Undisturbed()
        invariant generation == old(generation) && wire.conn.Some?
        invariant i == 0 ==> wire == asked && stopping == old(stopping)
        invariant i > 0 && !old(stopping) ==> !Bursts(asked, events[0], messageLimit)
        invariant !old(stopping) && WaitedFor(asked, events, i, messageLimit, id) ==> Untouched(Waited(asked, events, i))
        invariant !old(stopping) && !discard ==> forall k :: 0 <= k < i ==> !AnsweredAt(asked, events, k, messageLimit, id)
        invariant !old(stopping) ==>
                    forall k: nat, ending :: k < i ==> !EndsAt(asked, events, k, messageLimit, id, discard, ending)
      {
        var ending := Await(events[i], discard, id, ask);
        if ending.Some? {
          r := ending.value;
          return;
        }
      }
      DropIsFine(id, ask);
      Invalidate();
      r := Silent;
    }

    /** The connection moved on to `next`, and the session is otherwise as it was. */
    twostate predicate Untouched(next: Wire)
      reads this
    {
      && wire == next && cache == old(cache) && revision == old(revision) && ready == old(ready)
      && monitorId == old(monitorId) && generation == old(generation) && stopping == old(stopping)
      && selected == old(selected)
    }

    /** One turn of waiting for the answer; None is to wait on, on the same connection. */
    method Await(e: Event, discard: bool, id: nat, ghost ask: Ask) returns (r: Option<Ending>)
      requires Valid() && Ours(wire, id, ask) && wire.conn.Some?
      modifies this
      ensures Valid() && Ours(wire, id, ask) && Onward() && Undisturbed()
      ensures !old(stopping) && Bursts(old(wire), e, messageLimit) ==>
                r == Some(Failed(NotReady)) && wire.executed == ActedAll(old(wire), e.acts).executed
      ensures !old(stopping) && Uneventful(old(wire), e, messageLimit, id) ==> r == None && Untouched(ReadFrom(old(wire), e))
      ensures !old(stopping) && !discard && Replies(old(wire), e, messageLimit, id) ==>
                r == Some(Answer(ReplyOf(old(wire), e))) && Untouched(ReadFrom(old(wire), e))
      ensures !old(stopping) && TurnEnds(old(wire), e, messageLimit, id, discard).Some? ==>
                r == TurnEnds(old(wire), e, messageLimit, id, discard)
      ensures r.Some? && r.value.Failed? ==> !ready
      ensures r.None? || r.value.Answer? ==> generation == old(generation) && wire.conn.Some?
      ensures r.Some? ==> !r.value.Unsent?
      ensures r.Some? && r.value.Denied? ==> Unexecuted(wire, id)
      ensures r.Some? && r.value.Answer? ==> Tells(wire, Answered(id, r.value.payload), id, ask)
    {
      hide WireOk, Distinct, Logged, Ours, Position, Total, Same, Tells, Untold, Unexecuted, ActedAll;
      var started := generation;
      stopping := stopping || e.stopping;
      if stopping {
        return Some(Silent);
      }
      var read := Pump(e, id, ask);
      if read.Err? {
        return Some(Failed(read.code));
      }
      if generation != started || wire.conn.None? {
        ready := false;
        return Some(Silent);
      }
      if read.value.Some? && read.value.value.id == id {
        var ending := Settle(read.value.value, discard, id, ask);
        return Some(ending);
      }
      r := None;
    }

    /** The answer to the question asked, or its refusal; the fault hook discards either. */
    method Settle(message: Message, discard: bool, ghost id: nat, ghost ask: Ask) returns (r: Ending)
      requires Valid() && Ours(wire, id, ask) && wire.conn.Some?
      requires message.Answered? || message.Refused?
      requires message.id == id && Tells(wire, message, id, ask)
      modifies this`wire, this`ready, this`monitorId
      ensures Valid() && Ours(wire, id, ask) && wire.executed == old(wire).executed && (ready ==> old(ready))
      ensures r.Silent? <==> discard
      ensures r.Silent? ==> wire.conn.None? && !ready
      ensures !r.Silent? ==> wire == old(wire) && ready == old(ready) && monitorId == old(monitorId)
      ensures !r.Silent? ==> r == if message.Answered? then Answer(message.payload) else Denied
      ensures r.Denied? ==> Unexecuted(wire, id)
      ensures r.Answer? ==> Tells(wire, Answered(id, r.payload), id, ask)
    {
      hide WireOk, Distinct, Logged, Ours, Position, Total, Same, Unexecuted;
      if discard {
        DropIsFine(id, ask);
        Invalidate();
        return Silent;
      }
      match message {
        case Answered(_, payload) => r := Answer(payload);
        case Refused(refused) =>
          TellsRefused(wire, refused, id, ask);
          r := Denied;
      }
    }

    /** Pumping until a connection is up. */
    method Connected(events: seq<Event>) returns (r: Awaited<bool>)
      requires Valid()
      modifies this
      ensures Valid() && Onward() && Undisturbed()
      ensures r.Returned? ==> wire.conn.Some?
      ensures !r.Broken?
      ensures forall k :: 0 <= k && !old(stopping) && JoinsAt(old(wire), old(connection), events, k) ==>
                && r == Returned(true) && wire == ReadFrom(Waited(old(wire), events, k), events[k]) && !stopping
                && (k == 0 && wire.conn == old(connection) ==> Untouched(wire))
                && (k > 0 || wire.conn != old(connection) ==> generation == old(generation) + 1 && !ready)
      ensures old(ready && !stopping && Calm(valid, rowLimit, messageLimit, wire)) && events != [] && Idle(events[0]) ==>
                && r == Returned(true) && ready && !stopping && generation == old(generation)
                && wire == old(wire).(queue := Unread(old(wire).queue, 1)) && Calm(valid, rowLimit, messageLimit, wire)
    {
      hide WireOk, Distinct, Logged, Ours, Position, Total, Same, Tells, Untold, ActedAll, Offline, Joins, ReadFrom,
        Calm, Idle, Unread, JoinsAt, OfflineFor, NoneJoins, Waited;
      ghost var start, before := wire, connection;
      NothingTriedYet(start, before, events);
      for i := 0 to |events|
        invariant Valid() && Onward() && Undisturbed()
        invariant i == 0 ==> Untouched(start) && connection == before
        invariant !old(stopping) && OfflineFor(start, events, i) ==>
                    && !stopping && wire == Waited(start, events, i) && generation == old(generation)
                    && (i > 0 ==> connection == None)
        invariant !old(stopping) ==> NoneJoins(start, before, events, i)
        invariant i > 0 ==> !(old(ready && !stopping && Calm(valid, rowLimit, messageLimit, wire)) && Idle(events[0]))
      {
        if !old(stopping) {
          JoinOrGoOn(start, before, events, i);
        }
        var reached := Reach(events[i]);
        if reached.Err? {
          return Raised(reached.code);
        }
        if reached.value {
          return Returned(true);
        }
      }
      if !old(stopping) {
        NoneJoinsAtAll(start, before, events);
      }
      r := Raised(NotReady);
    }

    /** While it is calm, the oldest packet is the current monitor's next update, and acceptable. */
    lemma CalmStep()
      requires Valid() && ready && Calm(valid, rowLimit, messageLimit, wire) && wire.queue != []
      ensures connection == wire.conn && wire.queue[0].size <= messageLimit
      ensures var message := wire.queue[0].message;
              message.Notice? && Some(message.monitor) == monitorId
              && Acceptable(valid, selected, rowLimit, cache, message.updates)
      ensures Calm(valid, rowLimit, messageLimit, Popped(wire))
    {
      hide Distinct, Logged, Same, Diff, View, Pending, NoticeOk, InitialOk, Formed, Admits, Acceptable, Position;
      HeadTells(wire);
      assert wire.queue[0] in wire.queue && forall p :: p in wire.queue[1..] ==> p in wire.queue;
      var a, b := wire.views[Position(wire)], wire.views[Position(wire) + 1];
      assert a in wire.views && b in wire.views;
      StepAcceptable(valid, selected, rowLimit, cache, a, b);
    }

    lemma CalmIfQuiet(e: Event)
      requires Valid()
      ensures e.acts == [] ==> ActedAll(wire, e.acts) == wire
      ensures ready && Calm(valid, rowLimit, messageLimit, wire) ==>
                connection == wire.conn && wire.conn.Some?
                && (wire.queue != [] ==>
                      var message := wire.queue[0].message;
                      && wire.queue[0].size <= messageLimit && message.Notice? && Some(message.monitor) == monitorId
                      && Acceptable(valid, selected, rowLimit, cache, message.updates)
                      && Calm(valid, rowLimit, messageLimit, Popped(wire)))
    {
      hide WireOk, Distinct, Logged, Same, Position, Total, Acceptable, Calm;
      if ready && Calm(valid, rowLimit, messageLimit, wire) && wire.queue != [] {
        CalmStep();
      }
    }

    /** One turn towards a connection. */
    method Reach(e: Event) returns (r: Result<bool>)
      requires Valid()
      modifies this
      ensures Valid() && Onward() && Undisturbed()
      ensures r == Ok(true) ==> wire.conn.Some?
      ensures !old(stopping) && Offline(old(wire), e) ==>
                && r == Ok(false) && wire == ReadFrom(old(wire), e) && connection == None && !stopping
                && generation == old(generation)
      ensures !old(stopping) && Joins(old(wire), old(connection), e) ==>
                && r == Ok(true) && wire == ReadFrom(old(wire), e) && !stopping
                && (if wire.conn == old(connection) then Untouched(wire) else generation == old(generation) + 1 && !ready)
      ensures old(ready && !stopping && Calm(valid, rowLimit, messageLimit, wire)) && Idle(e) ==>
                && r == Ok(true) && ready && !stopping && generation == old(generation)
                && wire == old(wire).(queue := Unread(old(wire).queue, 1)) && Calm(valid, rowLimit, messageLimit, wire)
    {
      hide WireOk, Distinct, Logged, Ours, Position, Total, Same, Tells, Untold, ActedAll, Acceptable;
      stopping := stopping || e.stopping;
      if stopping {
        return Err(NotReady);
      }
      AnewIsOurs(GetSchema);
      CalmIfQuiet(e);
      var read := Pump(e, nextCall, GetSchema);
      if read.Err? {
        return Err(read.code);
      }
      r := Ok(wire.conn.Some?);
    }

    // -- Synchronisation ------------------------------------------------------------------------

    /** The first view makes the cache current: every later step is still unread. */
    lemma InitialIsCurrent(updates: Updates)
      requires WireOk(wire) && wire.watch.Some? && wire.views != [] && updates == Diff(map[], wire.views[0])
      ensures Same(Merge(map[], updates, updates.Keys), wire.views[0])
    {
      hide Diff, Merge, Same, Pending, View, NoticeOk, InitialOk;
      assert wire.views[0] in wire.views;
      var none: Database := map[];
      assert Same(none, none) by { SameSelf(none); }
      assert Formed(none, wire.watch.value.columns);
      MergeOfDiff(none, none, wire.views[0], wire.watch.value.columns);
    }

    /** Schema, monitor and first view: only then is the session ready. */
    method Establish(script: Script) returns (r: Awaited<bool>)
      requires Valid() && !ready
      modifies this
      ensures Valid() && Onward() && inflight == old(inflight) && written == old(written)
      ensures if r.Returned? then ready && generation == old(generation) else !ready
      ensures forall k, n :: 0 <= k && 0 <= n && !old(stopping)
                             && Welcomed(old(wire), old(nextCall), old(generation), script, k, n) ==>
                && r == Returned(true) && !stopping
                && wire == WelcomedWire(old(wire), old(nextCall), old(generation), script, k, n)
      ensures forall k :: (0 <= k && !old(stopping) && Told(old(wire), old(nextCall), script, k)
                           && !old(wire).schema.qualified && !readOnly) ==>
                r == Raised(SchemaMismatch)
    {
      hide WireOk, Distinct, Logged, Ours, Position, Total, Same, Untold, Unexecuted, ActedAll, Bursts, Asking, Tells, Current,
        AnsweredAt, Waited, ReadFrom, Viewed, ViewedWire, ReplyOf;
      var described, id := Request(GetSchema, script.schemaFails, script.asking, false);
      if !described.Answer? {
        return Unanswered(described);
      }
      SchemaTells(wire, id, described.payload);
      var schema := SchemaOf(described.payload);
      if schema.None? || (!schema.value.qualified && !readOnly) {
        return Raised(SchemaMismatch);
      }
      r := Subscribe(schema.value.columns, script);
    }

    /** The answer to the schema question comes. */
    ghost predicate Told(w: Wire, id: nat, script: Script, k: nat) {
      && !script.schemaFails && w.conn.Some? && k < |script.asking|
      && AnsweredAt(Asking(w, id, GetSchema), script.asking, k, messageLimit, id)
    }

    /** It is of a schema the session accepts. */
    ghost predicate Described(w: Wire, id: nat, script: Script, k: nat) {
      Told(w, id, script, k) && (w.schema.qualified || readOnly)
    }

    ghost function DescribedWire(w: Wire, id: nat, script: Script, k: nat): Wire {
      if k < |script.asking| then ReadFrom(Waited(Asking(w, id, GetSchema), script.asking, k), script.asking[k]) else w
    }

    ghost function Question(w: Wire, generation: nat): Ask {
      Monitor(Watch(generation, Common(monitorColumns, w.schema.columns)))
    }

    /** The answer to the monitor question comes, with a first view the session accepts. */
    ghost predicate Viewed(w: Wire, id: nat, generation: nat, script: Script, k: nat) {
      var asked := Asking(w, id, Question(w, generation));
      && !script.monitorFails && w.conn.Some? && k < |script.monitoring|
      && AnsweredAt(asked, script.monitoring, k, messageLimit, id)
      && var payload := ReplyOf(Waited(asked, script.monitoring, k), script.monitoring[k]);
         && payload.Initial?
         && Acceptable(valid, Common(monitorColumns, w.schema.columns), rowLimit, map[], payload.updates)
    }

    ghost function ViewedWire(w: Wire, id: nat, generation: nat, script: Script, k: nat): Wire {
      var asked := Asking(w, id, Question(w, generation));
      if k < |script.monitoring| then ReadFrom(Waited(asked, script.monitoring, k), script.monitoring[k]) else w
    }

    ghost predicate Welcomed(w: Wire, id: nat, generation: nat, script: Script, k: nat, n: nat) {
      Described(w, id, script, k) && Viewed(DescribedWire(w, id, script, k), id + 1, generation, script, n)
    }

    ghost function WelcomedWire(w: Wire, id: nat, generation: nat, script: Script, k: nat, n: nat): Wire {
      ViewedWire(DescribedWire(w, id, script, k), id + 1, generation, script, n)
    }

    /** The monitor on the columns the schema has, and its first view. */
    method Subscribe(columns: Columns, script: Script) returns (r: Awaited<bool>)
      requires Valid() && !ready && wire.conn.Some? && columns == wire.schema.columns
      requires wire.schema.qualified || readOnly
      modifies this
      ensures Valid() && Onward() && inflight == old(inflight) && written == old(written)
      ensures if r.Returned? then ready && generation == old(generation) else !ready
      ensures forall k :: 0 <= k && !old(stopping) && Viewed(old(wire), old(nextCall), old(generation), script, k) ==>
                r == Returned(true) && !stopping
                && wire == ViewedWire(old(wire), old(nextCall), old(generation), script, k)
    {
      hide WireOk, Distinct, Logged, Ours, Position, Total, Same, Untold, Diff, Merge, Acceptable, Unexecuted, ActedAll, Bursts,
        Asking, AnsweredAt, Waited, ReadFrom, ReplyOf, Common, Chosen;
      selected := Common(monitorColumns, columns);
      CommonIsChosen(monitorColumns, columns);
      monitorId := Some(generation);
      var watch := Watch(generation, selected);
      var first, id := Request(Monitor(watch), script.monitorFails, script.monitoring, false);
      if !first.Answer? {
        return Unanswered(first);
      }
      MonitorTells(wire, id, first.payload, watch);
      InitialIsCurrent(first.payload.updates);
      AnewIsOurs(GetSchema);
      DropIsFine(nextCall, GetSchema);
      var applied := Update(first.payload.updates, true);
      if applied.Err? {
        return Raised(NotReady);
      }
      ready := true;
      r := Returned(true);
    }

    /** At most 128 turns, until one brings no update. */
    method Drain(draining: nat -> Event) returns (r: Awaited<bool>)
      requires Valid()
      modifies this
      ensures Valid() && Onward() && Undisturbed()
      ensures if r.Returned? then ready else !ready
      ensures old(revision) <= revision <= old(revision) + 128
      ensures old(ready && Calm(valid, rowLimit, messageLimit, wire)) && Quiet(draining) ==>
                && r == Returned(true) && generation == old(generation)
                && wire == old(wire).(queue := Unread(old(wire).queue, DRAIN)) && stopping == old(stopping)
    {
      hide WireOk, Distinct, Logged, Ours, Position, Total, Same, Tells, Untold, Calm, ActedAll, Acceptable;
      ghost var calm := ready && Calm(valid, rowLimit, messageLimit, wire) && Quiet(draining);
      for i := 0 to DRAIN
        invariant Valid() && Onward() && Undisturbed()
        invariant old(revision) <= revision <= old(revision) + i
        invariant stopping == old(stopping)
        invariant calm ==>
                    && ready && Calm(valid, rowLimit, messageLimit, wire) && generation == old(generation)
                    && wire == old(wire).(queue := Unread(old(wire).queue, i))
      {
        var before := revision;
        AnewIsOurs(GetSchema);
        CalmIfQuiet(draining(i));
        var read := Pump(draining(i), nextCall, GetSchema);
        if read.Err? {
          return Raised(read.code);
        }
        if revision == before {
          break;
        }
      }
      r := if ready then Returned(true) else Raised(NotReady);
    }

    /** A ready session whose unread updates are all acceptable, in a quiet network. */
    ghost predicate Settled(script: Script)
      reads this
    {
      && ready && !stopping && Calm(valid, rowLimit, messageLimit, wire)
      && script.connecting != [] && Idle(script.connecting[0]) && Quiet(script.draining)
    }

    /** A session that is not ready gets a connection, the schema, and an acceptable first view, with
        nothing after it but acceptable updates. */
    ghost predicate Admitted(script: Script, j: nat, k: nat, n: nat)
      reads this
    {
      && !stopping && JoinsAt(wire, connection, script.connecting, j)
      && var joined := ReadFrom(Waited(wire, script.connecting, j), script.connecting[j]);
         var generation' := generation + if j == 0 && joined.conn == connection then 0 else 1;
         && (j == 0 && joined.conn == connection ==> !ready)
         && Welcomed(joined, nextCall, generation', script, k, n)
         && Calm(valid, rowLimit, messageLimit, WelcomedWire(joined, nextCall, generation', script, k, n))
         && Quiet(script.draining)
    }

    method Sync(script: Script) returns (r: Awaited<bool>)
      requires Valid()
      modifies this
      ensures Valid() && Onward() && inflight == old(inflight) && written == old(written)
      ensures r.Returned? ==> ready
      ensures old(Settled(script)) ==>
                && r == Returned(true) && generation == old(generation) && nextCall == old(nextCall) && !stopping
                && wire == Drained(old(wire))
      ensures forall j: nat, k: nat, n: nat :: old(Admitted(script, j, k, n)) ==> r == Returned(true)
    {
      hide WireOk, Distinct, Logged, Ours, Position, Total, Same, Current, Calm, Quiet, Idle, Welcomed, WelcomedWire, JoinsAt,
        ReadFrom, Waited;
      r := Connected(script.connecting);
      if !r.Returned? {
        return;
      }
      if !ready {
        r := Establish(script);
        if !r.Returned? {
          return;
        }
      }
      r := Drain(script.draining);
    }

    lemma CurrentShows()
      requires WireOk(wire) && Current()
      ensures wire.watch.Some? && Chosen(wire.watch.value.columns, monitorColumns, wire.schema.columns)
      ensures 0 <= Position(wire) < |wire.views|
      ensures Shown(cache, wire.views[Position(wire)], wire.watch.value.columns)
    {
      hide Pending, View, NoticeOk, InitialOk, Chosen;
      var view := wire.views[Position(wire)];
      assert view in wire.views && Formed(view, wire.watch.value.columns);
    }

    /** What a snapshot hands out is the monitored view of this generation's connection after the
        notices read so far, never that of an earlier generation; a failed one leaves the session
        unready. */
    method TakeSnapshot(script: Script) returns (r: Awaited<Raw>)
      requires Valid()
      modifies this
      ensures Valid() && Onward() && inflight == old(inflight) && written == old(written)
      ensures r.Returned? <==> ready
      ensures old(Settled(script)) ==> r.Returned? && generation == old(generation)
      ensures old(Settled(script)) && |old(wire).queue| <= 129 ==>
                Same(r.value.tables, View(old(wire).db, selected))
      ensures (exists j: nat, k: nat, n: nat :: old(Admitted(script, j, k, n))) ==> r.Returned?
      ensures r.Returned? ==> r.value == Raw(cache, generation, revision, true) && Current()
      ensures r.Returned? ==>
                && wire.watch.Some? && Chosen(wire.watch.value.columns, monitorColumns, wire.schema.columns)
                && 0 <= Position(wire) < |wire.views|
                && Shown(r.value.tables, wire.views[Position(wire)], wire.watch.value.columns)
    {
      hide WireOk, Distinct, Logged, Ours, Position, Total, Same, Current;
      var synced := Sync(script);
      if !synced.Returned? {
        ready := false;
        return if synced.Raised? then Raised(synced.code) else Broken;
      }
      r := Returned(Raw(cache, generation, revision, ready));
      CurrentShows();
      if wire.queue == [] {
        UpToDateWhenRead(this);
      }
    }

    /** A transaction is written out at most once and only in the wanted generation. However the call
        ends, the server has executed nothing else under its identifier, and what it executed is
        consistent with the answer: see `Submission.Consistent`. */
    method TransactOnce(
      requests: seq<Request>, wanted: Option<nat>, script: Script, sendFails: bool, events: seq<Event>, discard: bool)
      returns (r: Answer, ghost id: nat)
      requires Valid()
      modifies this
      ensures Valid() && Onward() && inflight == old(inflight)
      ensures WrittenOnce(old(written), written, id, requests, wanted)
      ensures r.NotSent? ==> Untold(wire, id) && written == old(written)
      ensures readOnly && requests != [] ==> r == NotSent(UnsupportedOperation)
      ensures old(Settled(script)) && !(readOnly && requests != []) ==>
                if wanted.Some? && wanted.value != old(generation) then r == NotSent(NotReady)
                else
                  && (sendFails ==> r == Lost && written == old(written))
                  && (!sendFails ==> written == old(written) + [Sending(id, requests, old(generation))])
      ensures forall k: nat ::
                (old(Settled(script)) && !(readOnly && requests != []) && !sendFails && !discard
                 && (wanted.Some? ==> wanted.value == old(generation)) && id == old(nextCall)
                 && AnsweredAt(Asking(Drained(old(wire)), id, Operate(requests)), events, k, messageLimit, id)) ==>
                  var payload := ReplyOf(Waited(Asking(Drained(old(wire)), id, Operate(requests)), events, k), events[k]);
                  payload.Elements? && r == Results(Some(payload.elements))
      ensures forall k: nat, ending ::
                (old(Settled(script)) && !(readOnly && requests != []) && !sendFails
                 && (wanted.Some? ==> wanted.value == old(generation)) && id == old(nextCall)
                 && EndsAt(Asking(Drained(old(wire)), id, Operate(requests)), events, k, messageLimit, id, discard, ending)) ==>
                  && (ending == Silent ==> r == Lost) && (ending == Denied ==> r == ErrorReply)
                  && (ending.Failed? ==> r == PumpFailed(ending.code))
      ensures r.ErrorReply? ==> Unexecuted(wire, id)
      ensures forall e :: e in wire.executed && e.id == id ==> Explained(r, e, requests)
      ensures r.Results? ==>
                && (wanted.Some? ==> generation == wanted.value)
                && exists e :: e in wire.executed && e.id == id
    {
      hide WireOk, Distinct, Logged, Ours, Position, Total, Same, Untold, Tells, Unexecuted, Explained, Chosen,
        AnsweredAt, Waited, ReplyOf, EndsAt, Admitted, Settled, Drained;
      id := nextCall;
      AnewIsOurs(GetSchema);
      UntoldExecuted(wire, id);
      if readOnly && requests != [] {
        return NotSent(UnsupportedOperation), id;
      }
      var synced := Sync(script);
      id := nextCall;
      AnewIsOurs(GetSchema);
      UntoldExecuted(wire, id);
      if synced.Raised? {
        return NotSent(synced.code), id;
      }
      if synced.Broken? {
        return Lost, id;
      }
      if wanted.Some? && generation != wanted.value {
        return NotSent(NotReady), id;
      }
      var ending;
      ending, id := Request(Operate(requests), sendFails, events, discard);
      OursExecuted(wire, id, Operate(requests));
      match ending {
        case Answer(payload) =>
          OperateTells(wire, id, payload, requests, nextCall);
          r := Results(Some(payload.elements));
        case Denied =>
          UnexecutedMeans(wire, id);
          r := ErrorReply;
        case Unsent => r := Lost;
        case Silent => r := Lost;
        case Failed(code) => r := PumpFailed(code);
      }
      if r.Lost? || r.PumpFailed? {
        OpenTells(wire, id, requests, r);
      }
    }

    // -- Whole runs ---------------------------------------------------------------------------------

    /** Any sequence of snapshots, transactions and forced reconnections: every snapshot handed out
        shows one of the views its connection's monitor went through, generations never decrease,
        and within one generation no later snapshot shows an earlier view. */
    method Run(commands: seq<Command>) returns (ghost sights: seq<Sight>)
      requires Valid()
      modifies this
      ensures Valid()
      ensures forall s :: s in sights ==> s.Faithful()
      ensures forall i, k :: 0 <= i < k < |sights| ==> NotBefore(sights[i], sights[k])
    {
      hide WireOk, Distinct, Logged, Ours, Position, Total, Same, Untold, Tells, Unexecuted;
      sights := [];
      for n := 0 to |commands|
        invariant Valid()
        invariant forall s :: s in sights ==> s.Faithful() && Past(s, generation, wire)
        invariant forall i, k :: 0 <= i < k < |sights| ==> NotBefore(sights[i], sights[k])
      {
        match commands[n] {
          case Look(script) =>
            ghost var g, w := generation, wire;
            var r := TakeSnapshot(script);
            forall s | s in sights
              ensures Past(s, generation, wire)
            {
              PastKept(s, g, w, generation, wire);
            }
            if r.Returned? {
              ghost var sight := Sight(generation, wire.views, Position(wire), r.value.tables);
              forall i | 0 <= i < |sights|
                ensures NotBefore(sights[i], sight)
              {
                assert sights[i] in sights && Past(sights[i], generation, wire);
              }
              sights := sights + [sight];
            }
          case Submit(requests, wanted, script, sendFails, events, discard) =>
            ghost var g, w := generation, wire;
            var _, _ := TransactOnce(requests, wanted, script, sendFails, events, discard);
            forall s | s in sights
              ensures Past(s, generation, wire)
            {
              PastKept(s, g, w, generation, wire);
            }
          case Reconnect =>
            AnewIsOurs(GetSchema);
            DropIsFine(nextCall, GetSchema);
            Invalidate();
        }
      }
    }
  }

  // -- A refusal of an executed transaction -------------------------------------------------------

  lemma AnswerServed(w: Wire, id: nat, requests: seq<Request>, size: nat)
    requires w.conn.Some? && w.calls == [] && w.queue == []
    ensures var met := ActedAll(Asking(w, id, Operate(requests)), [Serve(None, true, size)]);
            && met.conn == w.conn && met.queue != [] && met.queue[0].size == size
            && met.executed == w.executed + [Execution(id, w.db, requests, None)]
  {
    hide View, Diff, Transact, OnWireAll;
    var asked, act := Asking(w, id, Operate(requests)), Serve(None, true, size);
    assert asked.calls == [Call(id, Operate(requests))] && asked.calls[1..] == [];
    assert [act][1..] == [] && ActedAll(asked, [act]) == ActedAll(Acted(asked, act), []);
    assert Acted(asked, act) == Served(asked, None, true, size);
  }

  /** The server executes the transaction and its answer is over the message budget: the request ends
      with an error, which `TransactOnce` reports as `PumpFailed`, although everything was done. */
  method AnswerTooLarge(s: OvsSession, requests: seq<Request>) returns (r: Ending, ghost id: nat)
    requires s.Valid() && s.wire.conn.Some? && s.wire.calls == [] && s.wire.queue == [] && !s.stopping
    modifies s
    ensures r == Failed(NotReady)
    ensures s.wire.executed == old(s.wire).executed + [Execution(id, old(s.wire).db, requests, None)]
    ensures !s.ready
  {
    hide WireOk, Distinct, Logged, Ours, Position, Total, Same, Tells, Untold, Unexecuted, ActedAll;
    AnswerServed(s.wire, s.nextCall, requests, s.messageLimit + 1);
    var e := Event([Serve(None, true, s.messageLimit + 1)], false, false, true);
    r, id := s.Request(Operate(requests), false, [e], false);
  }

  // -- The admission limit ------------------------------------------------------------------------

  /** Never more than `limit` bytes of an unfinished message are let through to the parser. */
  class BoundedStream {
    const limit: nat
    var admitted: nat
    ghost var unfinished: Bytes  // let through and not yet part of a finished message

    ghost predicate Valid()
      reads this
    {
      |unfinished| == admitted <= limit
    }

    constructor (limit: nat)
      ensures Valid() && this.limit == limit && admitted == 0
    {
      this.limit, admitted, unfinished := limit, 0, [];
    }

    /** `arrived` is what the transport has; None is the message-size error. */
    method Recv(size: nat, arrived: Bytes) returns (r: Option<Bytes>)
      requires Valid()
      modifies this
      ensures Valid()
      ensures r.None? <==> old(admitted) == limit
      ensures r.None? ==> unfinished == old(unfinished)
      ensures r.Some? ==> r.value <= arrived && |r.value| <= size && unfinished == old(unfinished) + r.value
      ensures r.Some? && size > 0 && arrived != [] ==> r.value != []
    {
      if admitted >= limit {
        return None;
      }
      var room := if size <= limit - admitted then size else limit - admitted;
      var data := if |arrived| <= room then arrived else arrived[..room];
      admitted, unfinished := admitted + |data|, unfinished + data;
      r := Some(data);
    }

    /** A message is finished; `kept` bytes after it stay in the parser's input. */
    method Finished(kept: nat)
      requires Valid() && kept <= admitted
      modifies this
      ensures Valid() && unfinished == old(unfinished)[|old(unfinished)| - kept..]
    {
      unfinished, admitted := unfinished[|unfinished| - kept..], kept;
    }
  }

  // -- Readings of a valid session --------------------------------------------------------------

  /** A ready session with nothing unread shows the server's database as it is. */
  lemma UpToDateWhenRead(s: OvsSession)
    requires s.Valid() && s.ready && Pending(s.wire.queue) == 0
    ensures Same(s.cache, View(s.wire.db, s.selected))
  {
    hide Same, View, NoticeOk, InitialOk, Formed, Distinct, Total;
  }

  /** In terms of rows: every row of every wanted table that the server has is there, and no other, with
      exactly the wanted columns that the server has, as the server has them. */
  lemma WantedRowsShown(s: OvsSession, t: Table)
    requires s.Valid() && s.ready && Pending(s.wire.queue) == 0
    requires t in s.monitorColumns && t in s.wire.schema.columns
    ensures RowsOf(s.cache, t).Keys == RowsOf(s.wire.db, t).Keys
    ensures forall u, c :: u in RowsOf(s.cache, t) ==>
              (c in RowsOf(s.cache, t)[u] <==> c in s.monitorColumns[t] && c in s.wire.schema.columns[t])
    ensures forall u, c :: u in RowsOf(s.cache, t) && c in RowsOf(s.cache, t)[u] ==>
              RowsOf(s.cache, t)[u][c]
                == (if c in RowsOf(s.wire.db, t)[u] then RowsOf(s.wire.db, t)[u][c] else Atoms({}))
  {
    hide WireOk, Distinct, Logged, Total;
    UpToDateWhenRead(s);
    assert t in s.selected && RowsOf(s.cache, t) == RowsOf(View(s.wire.db, s.selected), t);
  }

  /** Whatever was done, the server executes only what this session wrote out, and each transaction
      written out at most once. */
  lemma ExecutedAtMostOnce(s: OvsSession, i: nat)
    requires s.Valid() && i < |s.wire.executed|
    ensures exists n :: 0 <= n < |s.written| && s.written[n].id == s.wire.executed[i].id
                        && s.written[n].requests == s.wire.executed[i].requests
    ensures forall j :: 0 <= j < |s.wire.executed| && s.wire.executed[j].id == s.wire.executed[i].id ==> j == i
  {
    hide WireOk, Same, Position, Total;
    var e := s.wire.executed[i];
    assert e in s.wire.executed;
    var sending :| sending in s.written && sending.id == e.id && sending.requests == e.requests;
  }
}
