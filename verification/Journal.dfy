/** The durable journal (store.py): operation rows in insertion order, ownership records and
    a bounded window of numbered events per run. Each commit is atomic; a crash keeps a prefix. */
module Journal {
  import opened Basics
  import opened Lifecycle

  datatype Phase = At(state: State) | Observing(operation: nat)

  datatype Event = Event(
    sequence: nat,
    operation: Option<nat>,
    pod: string,
    phase: Phase,
    reason: Option<Reason>)

  datatype ConflictCause = GuardFailed(reason: Option<Reason>) | ConfigurationChanged

  datatype ConflictRecord = ConflictRecord(operation: nat, cause: ConflictCause)

  /** Identifiers are journal positions, so the row of operation `i` is `rows[i]`. */
  datatype Journal = Journal(
    rows: seq<Operation>,
    conflicts: map<string, ConflictRecord>,
    events: map<string, seq<Event>>,
    maxOperations: nat,
    maxEvents: nat)
  {
    function Log(run: string): seq<Event> {
      if run in events then events[run] else []
    }
  }

  datatype Commit =
    | Insert(op: Operation)
    | Update(op: Operation)
    | Conflict(pod: string, record: ConflictRecord)
    | Observe(run: string, pod: string, operation: nat)

  // -- One commit -----------------------------------------------------------------

  function LastSequence(log: seq<Event>): nat {
    if log == [] then 0 else log[|log| - 1].sequence
  }

  function Prune(log: seq<Event>, floor: int): seq<Event> {
    if log == [] then []
    else (if log[0].sequence <= floor then [] else [log[0]]) + Prune(log[1..], floor)
  }

  function Appended(log: seq<Event>, event: Event, window: nat): seq<Event> {
    var numbered := event.(sequence := LastSequence(log) + 1);
    Prune(log + [numbered], numbered.sequence - window)
  }

  function WithEvent(j: Journal, run: string, event: Event): Journal {
    j.(events := j.events[run := Appended(j.Log(run), event, j.maxEvents)])
  }

  /** The event a commit writes, with the number left open, and the run it belongs to. */
  function EventOf(c: Commit): Option<(string, Event)> {
    match c
    case Insert(op) => Some((op.run, Event(0, Some(op.id), op.Pod(), At(op.state), None)))
    case Update(op) => Some((op.run, Event(0, Some(op.id), op.Pod(), At(op.state), op.reason)))
    case Conflict(_, _) => None
    case Observe(run, pod, operation) => Some((run, Event(0, None, pod, Observing(operation), None)))
  }

  function Apply(j: Journal, c: Commit): Journal {
    match c
    case Insert(op) =>
      WithEvent(j.(rows := j.rows + [op]), op.run, EventOf(c).value.1)
    case Update(op) =>
      WithEvent(j.(rows := if op.id < |j.rows| then j.rows[op.id := op] else j.rows), op.run, EventOf(c).value.1)
    case Conflict(pod, record) =>
      j.(conflicts := j.conflicts[pod := record])
    case Observe(run, _, _) =>
      WithEvent(j, run, EventOf(c).value.1)
  }

  function ApplyAll(j: Journal, commits: seq<Commit>): Journal {
    if commits == [] then j else Apply(ApplyAll(j, commits[..|commits| - 1]), commits[|commits| - 1])
  }

  lemma ApplyAllOneMore(j: Journal, commits: seq<Commit>, c: Commit)
    ensures ApplyAll(j, commits + [c]) == Apply(ApplyAll(j, commits), c)
  {
    hide Apply;
    var whole := commits + [c];
    assert whole[..|whole| - 1] == commits && whole[|whole| - 1] == c;
  }

  lemma NoCommits(j: Journal)
    ensures ApplyAll(j, []) == j
  {
  }

  lemma {:induction false} ApplyAllConcat(j: Journal, first: seq<Commit>, second: seq<Commit>)
    ensures ApplyAll(j, first + second) == ApplyAll(ApplyAll(j, first), second)
  {
    hide Apply, ApplyAll;
    if second == [] {
      assert first + second == first;
      NoCommits(ApplyAll(j, first));
    } else {
      var n := |second| - 1;
      ApplyAllConcat(j, first, second[..n]);
      ApplyAllOneMore(j, first + second[..n], second[n]);
      ApplyAllOneMore(ApplyAll(j, first), second[..n], second[n]);
      assert first + second == first + second[..n] + [second[n]];
      assert second == second[..n] + [second[n]];
    }
  }

  // -- What is read back ------------------------------------------------------------

  /** The record last written under an identifier. */
  function LastWrite(commits: seq<Commit>, id: nat): Option<Operation> {
    if commits == [] then None
    else
      var last := commits[|commits| - 1];
      if (last.Insert? || last.Update?) && last.op.id == id then Some(last.op)
      else LastWrite(commits[..|commits| - 1], id)
  }

  function LastRecorded(commits: seq<Commit>, pod: string): Option<ConflictRecord> {
    if commits == [] then None
    else
      var last := commits[|commits| - 1];
      if last.Conflict? && last.pod == pod then Some(last.record) else LastRecorded(commits[..|commits| - 1], pod)
  }

  /** Insertions take the next identifier and updates name a stored one. */
  ghost predicate Addressed(j: Journal, commits: seq<Commit>) {
    commits == [] ||
    var n := |commits| - 1;
    var before := ApplyAll(j, commits[..n]);
    && Addressed(j, commits[..n])
    && (commits[n].Insert? ==> commits[n].op.id == |before.rows|)
    && (commits[n].Update? ==> commits[n].op.id < |before.rows|)
  }

  /** What is read under an identifier is what was last written under it, and nothing is found
      where nothing was written. */
  lemma {:induction false} RowIsLastWrite(j: Journal, commits: seq<Commit>, id: nat)
    requires Addressed(j, commits)
    ensures var rows, last := ApplyAll(j, commits).rows, LastWrite(commits, id);
            && (id < |rows| <==> id < |j.rows| || last.Some?)
            && (id < |rows| ==> rows[id] == if last.Some? then last.value else j.rows[id])
  {
    if commits != [] {
      RowIsLastWrite(j, commits[..|commits| - 1], id);
    }
  }

  /** A pod's ownership record is the one last recorded for it, whatever else was committed since. */
  lemma {:induction false} ConflictIsLastRecorded(j: Journal, commits: seq<Commit>, pod: string)
    ensures var conflicts, last := ApplyAll(j, commits).conflicts, LastRecorded(commits, pod);
            && (pod in conflicts <==> pod in j.conflicts || last.Some?)
            && (pod in conflicts ==> conflicts[pod] == if last.Some? then last.value else j.conflicts[pod])
  {
    if commits != [] {
      ConflictIsLastRecorded(j, commits[..|commits| - 1], pod);
    }
  }

  // -- The bounded event window ---------------------------------------------------

  /** Every event ever written for a run, numbered from one. */
  function FullLog(commits: seq<Commit>, run: string): (log: seq<Event>)
    ensures forall k :: 0 <= k < |log| ==> log[k].sequence == k + 1
  {
    if commits == [] then []
    else
      var before := FullLog(commits[..|commits| - 1], run);
      match EventOf(commits[|commits| - 1])
      case Some((r, event)) =>
        if r == run then before + [event.(sequence := |before| + 1)] else before
      case None => before
  }

  function Suffix<T>(s: seq<T>, n: nat): seq<T> {
    if |s| <= n then s else s[|s| - n..]
  }

  lemma {:induction false} PruneKeepsTail(log: seq<Event>, floor: int, cut: nat)
    requires cut <= |log|
    requires forall k :: 0 <= k < cut ==> log[k].sequence <= floor
    requires forall k :: cut <= k < |log| ==> log[k].sequence > floor
    ensures Prune(log, floor) == log[cut..]
  {
    if log != [] {
      PruneKeepsTail(log[1..], floor, if cut == 0 then 0 else cut - 1);
    }
  }

  /** The retained window is exactly the newest `maxEvents` of the whole numbered log, for
      every history of commits. */
  lemma {:induction false} WindowIsSuffix(j: Journal, commits: seq<Commit>, run: string)
    requires j.events == map[]
    ensures ApplyAll(j, commits).Log(run) == Suffix(FullLog(commits, run), j.maxEvents)
    ensures ApplyAll(j, commits).maxEvents == j.maxEvents
  {
    if commits != [] {
      var n := |commits| - 1;
      WindowIsSuffix(j, commits[..n], run);
      ApplyExtendsLog(ApplyAll(j, commits[..n]), commits[n], run);
      LogStep(commits, run, j.maxEvents);
      assert ApplyAll(j, commits) == Apply(ApplyAll(j, commits[..n]), commits[n]);
    }
  }

  function Extended(log: seq<Event>, c: Commit, run: string, window: nat): seq<Event> {
    match EventOf(c)
    case None => log
    case Some((r, event)) => if r == run then Appended(log, event, window) else log
  }

  lemma LogStep(commits: seq<Commit>, run: string, window: nat)
    requires commits != []
    ensures Extended(Suffix(FullLog(commits[..|commits| - 1], run), window), commits[|commits| - 1], run, window)
         == Suffix(FullLog(commits, run), window)
  {
    var n := |commits| - 1;
    match EventOf(commits[n])
    case None =>
    case Some((r, event)) =>
      if r == run {
        AppendKeepsSuffix(FullLog(commits[..n], run), event, window);
      }
  }

  lemma ApplyExtendsLog(j: Journal, c: Commit, run: string)
    ensures Apply(j, c).maxEvents == j.maxEvents
    ensures Apply(j, c).Log(run) == Extended(j.Log(run), c, run, j.maxEvents)
  {
  }

  lemma SuffixOfOneMore<T>(s: seq<T>, x: T, n: nat)
    requires n > 0
    ensures var longer := Suffix(s, n) + [x];
            Suffix(s + [x], n) == if |longer| <= n then longer else longer[1..]
  {
  }

  lemma SuffixNumbered(full: seq<Event>, window: nat)
    requires forall k :: 0 <= k < |full| ==> full[k].sequence == k + 1
    ensures var log := Suffix(full, window);
            && |log| <= window && (window > 0 ==> LastSequence(log) == |full|)
            && (|log| < window ==> |log| == |full|)
            && (forall k :: 0 <= k < |log| ==> log[k].sequence == |full| - |log| + k + 1)
  {
  }

  lemma AppendKeepsSuffix(full: seq<Event>, event: Event, window: nat)
    requires forall k :: 0 <= k < |full| ==> full[k].sequence == k + 1
    ensures Appended(Suffix(full, window), event, window)
         == Suffix(full + [event.(sequence := |full| + 1)], window)
  {
    hide Prune, Suffix, LastSequence;
    var log := Suffix(full, window);
    var numbered := event.(sequence := LastSequence(log) + 1);
    var longer := log + [numbered];
    SuffixNumbered(full, window);
    if window == 0 {
      PruneKeepsTail(longer, numbered.sequence, |longer|);
      NoSuffix(full + [event.(sequence := |full| + 1)]);
    } else {
      SuffixOfOneMore(full, numbered, window);
      PruneKeepsTail(longer, numbered.sequence - window, if |longer| <= window then 0 else 1);
    }
  }

  lemma NoSuffix<T>(s: seq<T>)
    ensures Suffix(s, 0) == []
  {
  }

  /** The newest event of a run describes the commit that wrote it, and only that run gets one. */
  lemma NewestDescribes(j: Journal, c: Commit)
    requires j.maxEvents > 0
    ensures var later := Apply(j, c);
            match c
            case Insert(op) => NewestIs(later, op.run, Some(op.id), op.Pod(), At(op.state), None)
            case Update(op) => NewestIs(later, op.run, Some(op.id), op.Pod(), At(op.state), op.reason)
            case Observe(run, pod, operation) => NewestIs(later, run, None, pod, Observing(operation), None)
            case Conflict(_, _) => later.events == j.events
    ensures forall run ::
              !(c.Observe? && run == c.run) && !((c.Insert? || c.Update?) && run == c.op.run) ==>
                Apply(j, c).Log(run) == j.Log(run)
  {
    hide Prune;
    match c
    case Insert(op) => NewestKept(j.Log(op.run), EventOf(c).value.1, j.maxEvents);
    case Update(op) => NewestKept(j.Log(op.run), EventOf(c).value.1, j.maxEvents);
    case Observe(run, _, _) => NewestKept(j.Log(run), EventOf(c).value.1, j.maxEvents);
    case Conflict(_, _) =>
  }

  predicate NewestIs(j: Journal, run: string, operation: Option<nat>, pod: string, phase: Phase, reason: Option<Reason>) {
    var log := j.Log(run);
    log != [] && log[|log| - 1] == Event(log[|log| - 1].sequence, operation, pod, phase, reason)
  }

  lemma NewestKept(log: seq<Event>, event: Event, window: nat)
    requires window > 0
    ensures var longer := Appended(log, event, window);
            longer != [] && longer[|longer| - 1] == event.(sequence := LastSequence(log) + 1)
  {
    var numbered := event.(sequence := LastSequence(log) + 1);
    LastStays(log, numbered, numbered.sequence - window);
  }

  lemma {:induction false} LastStays(log: seq<Event>, last: Event, floor: int)
    requires last.sequence > floor
    ensures var kept := Prune(log + [last], floor);
            kept != [] && kept[|kept| - 1] == last
  {
    if log == [] {
      assert log + [last] == [last];
    } else {
      assert (log + [last])[1..] == log[1..] + [last];
      LastStays(log[1..], last, floor);
    }
  }

  // -- Reading pages of events ----------------------------------------------------

  function Max(a: int, b: int): int {
    if a < b then b else a
  }

  function Min(a: int, b: int): int {
    if a < b then a else b
  }

  function After(log: seq<Event>, after: int): seq<Event> {
    Prune(log, after)
  }

  function Page(log: seq<Event>, after: int, limit: int): seq<Event> {
    var rest := After(log, after);
    rest[..Min(|rest|, Min(Max(limit, 1), 500))]
  }

  ghost predicate Increasing(log: seq<Event>) {
    forall i, k :: 0 <= i < k < |log| ==> log[i].sequence < log[k].sequence
  }

  lemma {:induction false} AfterSplits(log: seq<Event>, after: int) returns (cut: nat)
    requires Increasing(log)
    ensures cut <= |log| && After(log, after) == log[cut..]
    ensures forall k :: 0 <= k < cut ==> log[k].sequence <= after
    ensures forall k :: cut <= k < |log| ==> log[k].sequence > after
  {
    cut := 0;
    while cut < |log| && log[cut].sequence <= after
      invariant cut <= |log|
      invariant forall k :: 0 <= k < cut ==> log[k].sequence <= after
    {
      cut := cut + 1;
    }
    PruneKeepsTail(log, after, cut);
  }

  /** Following a page by the one after its last event neither skips nor repeats anything,
      and an empty page means there is nothing left. */
  lemma PagesCoverLog(log: seq<Event>, after: int, limit: int)
    requires Increasing(log)
    ensures var page := Page(log, after, limit);
            if page == [] then After(log, after) == []
            else After(log, after) == page + After(log, page[|page| - 1].sequence)
  {
    var cut := AfterSplits(log, after);
    var page := Page(log, after, limit);
    if page != [] {
      var last := page[|page| - 1].sequence;
      assert page == log[cut..cut + |page|];
      assert last == log[cut + |page| - 1].sequence;
      PruneKeepsTail(log, last, cut + |page|);
    }
  }

  /** Between one and 500 events, at most as many as asked for, and fewer only when there are no more:
      the oldest of those after the given number. */
  lemma PageIsOldest(log: seq<Event>, after: int, limit: int)
    requires Increasing(log)
    ensures forall e :: e in After(log, after) <==> e in log && e.sequence > after
    ensures var page := Page(log, after, limit);
            && page <= After(log, after)
            && |page| <= 500 && (limit >= 1 ==> |page| <= limit) && (limit < 1 ==> |page| <= 1)
            && (|page| < |After(log, after)| ==> |page| == 500 || |page| == limit || (limit < 1 && |page| == 1))
  {
    var cut := AfterSplits(log, after);
    assert log == log[..cut] + log[cut..];
  }

  // -- The store object -----------------------------------------------------------

  class Store {
    var rows: seq<Operation>
    var conflicts: map<string, ConflictRecord>
    var eventLog: map<string, seq<Event>>
    const maxOperations: nat
    const maxEvents: nat
    ghost const base: Journal
    ghost var history: seq<Commit>

    ghost function View(): Journal
      reads this
    {
      Journal(rows, conflicts, eventLog, maxOperations, maxEvents)
    }

    /** The tables hold what was there when the store was opened plus every commit since. */
    ghost predicate Valid()
      reads this
    {
      View() == ApplyAll(base, history)
    }

    constructor (existing: Journal)
      ensures Valid() && View() == existing && history == []
    {
      rows, conflicts, eventLog := existing.rows, existing.conflicts, existing.events;
      maxOperations, maxEvents := existing.maxOperations, existing.maxEvents;
      base, history := existing, [];
    }

    method Get(id: nat) returns (r: Result<Operation>)
      ensures r == if id < |rows| then Ok(rows[id]) else Err(NotFound)
    {
      r := if id < |rows| then Ok(rows[id]) else Err(NotFound);
    }

    method Lookup(source: string, pod: string, key: string) returns (r: Option<Operation>)
      ensures r.Some? ==> r.value in rows && Keyed(r.value, source, pod, key)
      ensures r.None? ==> forall op :: op in rows ==> !Keyed(op, source, pod, key)
      ensures r == FindKey(rows, source, pod, key)
    {
      for i := 0 to |rows|
        invariant FindKey(rows, source, pod, key) == FindKey(rows[i..], source, pod, key)
        invariant forall k :: 0 <= k < i ==> !Keyed(rows[k], source, pod, key)
      {
        if Keyed(rows[i], source, pod, key) {
          return Some(rows[i]);
        }
        assert rows[i..][1..] == rows[i + 1..];
      }
      r := None;
    }

    method Operations() returns (r: seq<Operation>)
      ensures r == rows
    {
      r := rows;
    }

    method Ownership(pod: string) returns (r: Option<ConflictRecord>)
      ensures r == if pod in conflicts then Some(conflicts[pod]) else None
    {
      r := if pod in conflicts then Some(conflicts[pod]) else None;
    }

    method Events(run: string, after: int, limit: int) returns (page: seq<Event>)
      ensures page == Page(View().Log(run), after, limit)
    {
      page := Page(if run in eventLog then eventLog[run] else [], after, limit);
    }

    method Add(op: Operation) returns (r: Result<bool>)
      requires Valid()
      modifies this
      ensures Valid()
      ensures r.Err? <==> old(|rows|) >= maxOperations
      ensures r.Err? ==> r.code == Busy && history == old(history)
      ensures r.Ok? ==> history == old(history) + [Insert(op)] && View() == Apply(old(View()), Insert(op))
      ensures r.Err? ==> View() == old(View())
    {
      hide ApplyAll, Appended;
      if |rows| >= maxOperations {
        return Err(Busy);
      }
      rows := rows + [op];
      NumberEvent(op.run, Event(0, Some(op.id), op.Pod(), At(op.state), None));
      history := history + [Insert(op)];
      ApplyAllOneMore(base, old(history), Insert(op));
      r := Ok(true);
    }

    method Save(op: Operation)
      requires Valid()
      modifies this
      ensures Valid()
      ensures history == old(history) + [Update(op)] && View() == Apply(old(View()), Update(op))
    {
      hide ApplyAll, Appended;
      if op.id < |rows| {
        rows := rows[op.id := op];
      }
      NumberEvent(op.run, Event(0, Some(op.id), op.Pod(), At(op.state), op.reason));
      history := history + [Update(op)];
      ApplyAllOneMore(base, old(history), Update(op));
    }

    method RecordEvent(run: string, pod: string, operation: nat)
      requires Valid()
      modifies this
      ensures Valid()
      ensures history == old(history) + [Observe(run, pod, operation)]
      ensures View() == Apply(old(View()), Observe(run, pod, operation))
    {
      hide ApplyAll, Appended;
      NumberEvent(run, Event(0, None, pod, Observing(operation), None));
      history := history + [Observe(run, pod, operation)];
      ApplyAllOneMore(base, old(history), Observe(run, pod, operation));
    }

    method RecordConflict(pod: string, record: ConflictRecord)
      requires Valid()
      modifies this
      ensures Valid()
      ensures history == old(history) + [Conflict(pod, record)]
      ensures View() == Apply(old(View()), Conflict(pod, record))
    {
      hide ApplyAll, Appended;
      conflicts := conflicts[pod := record];
      history := history + [Conflict(pod, record)];
      ApplyAllOneMore(base, old(history), Conflict(pod, record));
    }

    /** Insert the next number of the run, then delete what falls out of the window. */
    method NumberEvent(run: string, event: Event)
      modifies this`eventLog
      ensures eventLog == old(eventLog)[run := Appended(old(View()).Log(run), event, maxEvents)]
    {
      var log := if run in eventLog then eventLog[run] else [];
      var numbered := event.(sequence := LastSequence(log) + 1);
      log := log + [numbered];
      eventLog := eventLog[run := Prune(log, numbered.sequence - maxEvents)];
    }
  }

  predicate Keyed(op: Operation, source: string, pod: string, key: string) {
    op.source == source && op.Pod() == pod && op.key == key
  }

  function FindKey(rows: seq<Operation>, source: string, pod: string, key: string): (r: Option<Operation>)
    ensures r.Some? ==> r.value in rows && Keyed(r.value, source, pod, key)
    ensures r.None? ==> forall op :: op in rows ==> !Keyed(op, source, pod, key)
  {
    if rows == [] then None
    else if Keyed(rows[0], source, pod, key) then Some(rows[0])
    else FindKey(rows[1..], source, pod, key)
  }
}
