/** The replication listener (crates/calce-cdc/src/listener.rs): the streaming loop, the row-change
    handler and the reconnect loop. What the environment decides in one turn of the streaming loop
    (the bytes read, whether ten seconds have passed, whether writes and the channel work) is an
    `Arrival`; a finite script of arrivals is one session. */
module Listener {
  import opened Prelude
  import opened Bytes
  import opened Protocol

  datatype CdcOperation = InsertOp | UpdateOp | DeleteOp

  type ColumnMap = map<ByteString, Option<ByteString>>

  datatype CdcEvent = CdcEvent(table: ByteString, operation: CdcOperation, columns: ColumnMap)

  datatype Arrival = Arrival(frame: Result<ByteString, CdcError>, statusDue: bool, writesOk: bool, channelOpen: bool)

  /** One pass of `run`: whether the channel was seen closed first, the start position text that
      setting up the slot gave (or why it failed), and what the streaming loop then read. */
  datatype Session = Session(channelClosed: bool, setup: Result<string, CdcError>, arrivals: seq<Arrival>)

  const MAX_BACKOFF := 60

  // ---- Pure parts ----

  function CellOf(value: TupleValue): Option<ByteString> {
    match value
    case Text(text) => Some(text)
    case _ => None
  }

  /** The first `n` pairs of the zip, collected into a map: a repeated column name keeps its last value. */
  function ZipColumns(columns: seq<ColumnInfo>, tuple: seq<TupleValue>, n: nat): ColumnMap
    requires n <= |columns| && n <= |tuple|
  {
    if n == 0 then map[] else ZipColumns(columns, tuple, n - 1)[columns[n - 1].name := CellOf(tuple[n - 1])]
  }

  function BuildColumnMap(relation: RelationInfo, tuple: seq<TupleValue>): ColumnMap {
    ZipColumns(relation.columns, tuple, Min(|relation.columns|, |tuple|))
  }

  function EventOf(relation: RelationInfo, m: PgOutputMessage): CdcEvent
    requires m.Insert? || m.Update? || m.Delete?
  {
    CdcEvent(relation.name,
             if m.Insert? then InsertOp else if m.Update? then UpdateOp else DeleteOp,
             BuildColumnMap(relation, m.tuple))
  }

  // ---- What one session does ----

  /** The locals of `stream_loop`, with what it has put on the channel and what it has confirmed. A
      confirmation counts from the moment it is written: a failed write may still have arrived. */
  datatype Stream = Stream(schema: map<Word32, RelationInfo>, lastLsn: Lsn, events: seq<CdcEvent>, statuses: seq<Lsn>)

  datatype Turned = Turned(stream: Stream, error: Option<CdcError>)

  const FRESH := Stream(map[], 0, [], [])

  function Handle(s: Stream, m: PgOutputMessage, channelOpen: bool): Turned {
    match m
    case Relation(info) => Turned(s.(schema := s.schema[info.id := info]), None)
    case Begin => Turned(s, None)
    case Commit => Turned(s, None)
    case _ =>
      if m.relationId !in s.schema then Turned(s, None)
      else if channelOpen then Turned(s.(events := s.events + [EventOf(s.schema[m.relationId], m)]), None)
      else Turned(s, Some(ChannelClosed))
  }

  function Accept(s: Stream, parsed: Option<PgOutputMessage>, channelOpen: bool): Turned {
    if parsed.None? then Turned(s, None) else Handle(s, parsed.value, channelOpen)
  }

  function Confirm(s: Stream, writesOk: bool): Turned {
    Turned(s.(statuses := s.statuses + [s.lastLsn]), if writesOk then None else Some(Io))
  }

  function Periodic(t: Turned, a: Arrival): Turned {
    if t.error.None? && a.statusDue && t.stream.lastLsn > 0 then Confirm(t.stream, a.writesOk) else t
  }

  function Receive(s: Stream, m: ReplicationMessage, a: Arrival): Turned {
    match m
    case XLogData(walEnd, data) =>
      var s1 := s.(lastLsn := walEnd);
      (match MessageOf(data)
       case Err(e) => Turned(s1, Some(e))
       case Ok(parsed) => Accept(s1, parsed, a.channelOpen))
    case KeepAlive(walEnd, reply) =>
      var s1 := s.(lastLsn := Max(s.lastLsn, walEnd));
      if reply then Confirm(s1, a.writesOk) else Turned(s1, None)
  }

  /** One turn of `stream_loop`. */
  function Turn(s: Stream, a: Arrival): Turned {
    match a.frame
    case Err(e) => Turned(s, Some(e))
    case Ok(bytes) =>
      match ReplicationOf(bytes)
      case Err(e) => Turned(s, Some(e))
      case Ok(m) => Periodic(Receive(s, m, a), a)
  }

  /** The loop ends only with an error; a script that runs out is a lost connection. */
  function RunLoop(s: Stream, arrivals: seq<Arrival>): (t: Turned)
    ensures t.error.Some?
    decreases |arrivals|
  {
    if arrivals == [] then Turned(s, Some(ConnectionLost)) else
    var t := Turn(s, arrivals[0]);
    if t.error.Some? then t else RunLoop(t.stream, arrivals[1..])
  }

  function SessionRun(s: Session): (t: Turned)
    ensures t.error.Some?
  {
    match s.setup
    case Err(e) => Turned(FRESH, Some(e))
    case Ok(_) => RunLoop(FRESH, s.arrivals)
  }

  /** The sessions that `run` gets to: it returns when it sees the channel closed. */
  function Performed(sessions: seq<Session>): (n: nat)
    ensures n <= |sessions|
  {
    if sessions == [] || sessions[0].channelClosed then 0
    else if SessionRun(sessions[0]).error == Some(ChannelClosed) then 1
    else 1 + Performed(sessions[1..])
  }

  /** The failures after which `run` sleeps and tries again. */
  function Retried(sessions: seq<Session>): (n: nat)
    ensures n <= Performed(sessions) <= n + 1
  {
    if sessions == [] || sessions[0].channelClosed || SessionRun(sessions[0]).error == Some(ChannelClosed) then 0
    else 1 + Retried(sessions[1..])
  }

  function SessionEvents(s: Session): seq<CdcEvent> { SessionRun(s).stream.events }

  function EventsOf(sessions: seq<Session>): seq<CdcEvent> {
    if sessions == [] then [] else EventsOf(sessions[..|sessions| - 1]) + SessionEvents(sessions[|sessions| - 1])
  }

  function SessionStatuses(s: Session): seq<Lsn> { SessionRun(s).stream.statuses }

  /** Every position confirmed by the sessions, in order. */
  function StatusesOf(sessions: seq<Session>): seq<Lsn> {
    if sessions == [] then [] else StatusesOf(sessions[..|sessions| - 1]) + SessionStatuses(sessions[|sessions| - 1])
  }

  /** Seconds slept after failure `k`: doubling from one, capped, never reset by a good session. */
  function Backoff(k: nat): nat {
    if k == 0 then 1 else Min(2 * Backoff(k - 1), MAX_BACKOFF)
  }

  function Backoffs(n: nat): (r: seq<nat>)
    ensures |r| == n && forall k :: 0 <= k < n ==> r[k] == Backoff(k)
  {
    if n == 0 then [] else Backoffs(n - 1) + [Backoff(n - 1)]
  }

  // ---- The listener ----

  class CdcListener {
    var events: seq<CdcEvent>
    var statuses: seq<Lsn>
    var sleeps: seq<nat>

    constructor ()
      ensures events == [] && statuses == [] && sleeps == []
    {
      events, statuses, sleeps := [], [], [];
    }

    method SendStatusUpdate(lsn: Lsn, writesOk: bool) returns (r: Result<(), CdcError>)
      modifies this`statuses
      ensures statuses == old(statuses) + [lsn]
      ensures r == if writesOk then Ok(()) else Err(Io)
    {
      statuses := statuses + [lsn];
      r := if writesOk then Ok(()) else Err(Io);
    }

    method HandlePgoutput(m: PgOutputMessage, schema: map<Word32, RelationInfo>, channelOpen: bool)
      returns (newSchema: map<Word32, RelationInfo>, error: Option<CdcError>)
      modifies this`events
      ensures forall lsn :: Handle(Stream(schema, lsn, old(events), statuses), m, channelOpen)
                         == Turned(Stream(newSchema, lsn, events, statuses), error)
    {
      newSchema, error := schema, None;
      match m
      case Relation(info) =>
        newSchema := schema[info.id := info];
      case Begin =>
      case Commit =>
      case _ =>
        if m.relationId in schema {
          if channelOpen {
            events := events + [EventOf(schema[m.relationId], m)];
          } else {
            error := Some(ChannelClosed);
          }
        }
    }

    /** One message of the streaming loop. */
    method Process(m: ReplicationMessage, a: Arrival, schema: map<Word32, RelationInfo>, lastLsn: Lsn)
      returns (newSchema: map<Word32, RelationInfo>, newLsn: Lsn, error: Option<CdcError>)
      modifies this`events, this`statuses
      ensures Receive(Stream(schema, lastLsn, old(events), old(statuses)), m, a)
           == Turned(Stream(newSchema, newLsn, events, statuses), error)
    {
      newSchema, newLsn, error := schema, lastLsn, None;
      match m {
        case XLogData(walEnd, data) =>
          newLsn := walEnd;
          var parsed := ParseMessage(data);
          if parsed.Err? {
            error := Some(parsed.error);
          } else if parsed.value.Some? {
            newSchema, error := HandlePgoutput(parsed.value.value, schema, a.channelOpen);
          }
        case KeepAlive(walEnd, reply) =>
          newLsn := Max(lastLsn, walEnd);
          if reply {
            var sent := SendStatusUpdate(newLsn, a.writesOk);
            if sent.Err? {
              error := Some(sent.error);
            }
          }
      }
    }

    /** `stream_loop`: everything it puts on the channel and confirms is `RunLoop`'s. */
    method StreamLoop(arrivals: seq<Arrival>) returns (error: CdcError)
      modifies this`events, this`statuses
      ensures var t := RunLoop(Stream(map[], 0, old(events), old(statuses)), arrivals);
              t.error == Some(error) && t.stream.events == events && t.stream.statuses == statuses
    {
      var schema: map<Word32, RelationInfo> := map[];
      var lastLsn: Lsn := 0;
      ghost var start := Stream(map[], 0, events, statuses);
      var i := 0;
      while i < |arrivals|
        invariant 0 <= i <= |arrivals|
        invariant RunLoop(start, arrivals) == RunLoop(Stream(schema, lastLsn, events, statuses), arrivals[i..])
      {
        var a := arrivals[i];
        assert arrivals[i..][0] == a && arrivals[i..][1..] == arrivals[i + 1..];
        if a.frame.Err? {
          return a.frame.error;
        }
        var m := ParseReplication(a.frame.value);
        if m.Err? {
          return m.error;
        }
        var failed;
        schema, lastLsn, failed := Process(m.value, a, schema, lastLsn);
        if failed.Some? {
          return failed.value;
        }
        if a.statusDue && lastLsn > 0 {
          var sent := SendStatusUpdate(lastLsn, a.writesOk);
          if sent.Err? {
            return sent.error;
          }
        }
        i := i + 1;
      }
      return ConnectionLost;
    }

    /** `run`, over the sessions the environment offers. It performs exactly the first `Performed`
        ones, whose events go on the channel and whose confirmations are written one session after the
        other, and sleeps after each failure. */
    method Run(sessions: seq<Session>)
      modifies this
      ensures events == old(events) + EventsOf(sessions[..Performed(sessions)])
      ensures statuses == old(statuses) + StatusesOf(sessions[..Performed(sessions)])
      ensures sleeps == old(sleeps) + Backoffs(Retried(sessions))
    {
      var backoff := 1;
      var i := 0;
      NothingYet(events, statuses, sessions);
      assert sleeps + Backoffs(0) == sleeps;
      while i < |sessions|
        invariant 0 <= i <= |sessions|
        invariant Performed(sessions) == i + Performed(sessions[i..]) && Retried(sessions) == i + Retried(sessions[i..])
        invariant RanThrough(old(events), events, old(statuses), statuses, sessions[..i])
        invariant sleeps == old(sleeps) + Backoffs(i) && backoff == Backoff(i)
      {
        PerformedStep(sessions, i);
        if sessions[i].channelClosed {
          return;
        }
        OneMoreSession(old(events), events, old(statuses), statuses, sessions, i);
        var error := RunOnce(sessions[i]);
        if error == ChannelClosed {
          return;
        }
        BackoffStep(old(sleeps), i);
        sleeps := sleeps + [backoff];
        backoff := Min(2 * backoff, MAX_BACKOFF);
        i := i + 1;
      }
    }

    method RunOnce(s: Session) returns (error: CdcError)
      modifies this`events, this`statuses
      ensures SessionRun(s).error == Some(error)
      ensures events == old(events) + SessionEvents(s)
      ensures statuses == old(statuses) + SessionStatuses(s)
    {
      if s.setup.Err? {
        return s.setup.error;
      }
      LoopExtends(FRESH, events, statuses, s.arrivals);
      assert events + [] == events && statuses + [] == statuses;
      error := StreamLoop(s.arrivals);
    }
  }

  /** Events and confirmations of earlier sessions are only carried along. */
  lemma {:induction false} LoopExtends(s: Stream, events: seq<CdcEvent>, statuses: seq<Lsn>, arrivals: seq<Arrival>)
    ensures RunLoop(Carry(s, events, statuses), arrivals).error == RunLoop(s, arrivals).error
    ensures RunLoop(Carry(s, events, statuses), arrivals).stream == Carry(RunLoop(s, arrivals).stream, events, statuses)
    decreases |arrivals|
  {
    if arrivals != [] {
      TurnExtends(s, events, statuses, arrivals[0]);
      if Turn(s, arrivals[0]).error.None? {
        LoopExtends(Turn(s, arrivals[0]).stream, events, statuses, arrivals[1..]);
      }
    }
  }

  function Carry(s: Stream, events: seq<CdcEvent>, statuses: seq<Lsn>): Stream {
    s.(events := events + s.events, statuses := statuses + s.statuses)
  }

  lemma TurnExtends(s: Stream, events: seq<CdcEvent>, statuses: seq<Lsn>, a: Arrival)
    ensures Turn(Carry(s, events, statuses), a).error == Turn(s, a).error
    ensures Turn(Carry(s, events, statuses), a).stream == Carry(Turn(s, a).stream, events, statuses)
  {
    if a.frame.Ok? && ReplicationOf(a.frame.value).Ok? {
      var m := ReplicationOf(a.frame.value).value;
      var t := Receive(s, m, a);
      ConfirmExtends(s.(lastLsn := Max(s.lastLsn, m.walEnd)), events, statuses, a.writesOk);
      ConfirmExtends(t.stream, events, statuses, a.writesOk);
      if m.XLogData? && MessageOf(m.data).Ok? && MessageOf(m.data).value.Some? {
        HandleExtends(s.(lastLsn := m.walEnd), events, statuses, MessageOf(m.data).value.value, a.channelOpen);
      }
    }
  }

  lemma ConfirmExtends(s: Stream, events: seq<CdcEvent>, statuses: seq<Lsn>, writesOk: bool)
    ensures Confirm(Carry(s, events, statuses), writesOk)
         == Turned(Carry(Confirm(s, writesOk).stream, events, statuses), Confirm(s, writesOk).error)
  {
    assert statuses + (s.statuses + [s.lastLsn]) == statuses + s.statuses + [s.lastLsn];
  }

  lemma HandleExtends(s: Stream, events: seq<CdcEvent>, statuses: seq<Lsn>, m: PgOutputMessage, channelOpen: bool)
    ensures Handle(Carry(s, events, statuses), m, channelOpen)
         == Turned(Carry(Handle(s, m, channelOpen).stream, events, statuses), Handle(s, m, channelOpen).error)
  {
    if (m.Insert? || m.Update? || m.Delete?) && m.relationId in s.schema {
      var e := EventOf(s.schema[m.relationId], m);
      assert events + (s.events + [e]) == events + s.events + [e];
    }
  }

  // ---- What is sent, confirmed and waited ----

  /** What the event of a row shows of the first `n` columns: under each name the text of its last
      occurrence, and null for a column that is null or unchanged; no other names. */
  ghost predicate ShowsRow(columns: seq<ColumnInfo>, tuple: seq<TupleValue>, n: nat, shown: ColumnMap)
    requires n <= |columns| && n <= |tuple|
  {
    && (forall i :: 0 <= i < n && IsLastNamed(columns, n, i) ==> ShowsColumn(shown, columns[i].name, tuple[i]))
    && (forall name :: name in shown ==> IsNamed(columns, n, name))
  }

  predicate ShowsColumn(shown: ColumnMap, name: ByteString, value: TupleValue) {
    && name in shown
    && (value.Text? ==> shown[name] == Some(value.text))
    && (value.Null? || value.UnchangedToast? ==> shown[name] == None)
  }

  /** No column after it, among the first `n`, has the same name. */
  predicate IsLastNamed(columns: seq<ColumnInfo>, n: nat, i: nat)
    requires i < n <= |columns|
  {
    forall j :: i < j < n ==> columns[j].name != columns[i].name
  }

  predicate IsNamed(columns: seq<ColumnInfo>, n: nat, name: ByteString)
    requires n <= |columns|
  {
    exists i :: 0 <= i < n && columns[i].name == name
  }

  lemma {:induction false} ZipShows(columns: seq<ColumnInfo>, tuple: seq<TupleValue>, n: nat)
    requires n <= |columns| && n <= |tuple|
    ensures ShowsRow(columns, tuple, n, ZipColumns(columns, tuple, n))
  {
    if n > 0 {
      var m := n - 1;
      var before, shown := ZipColumns(columns, tuple, m), ZipColumns(columns, tuple, n);
      ZipShows(columns, tuple, m);
      forall i | 0 <= i < n && IsLastNamed(columns, n, i)
        ensures ShowsColumn(shown, columns[i].name, tuple[i])
      {
        if i < m {
          assert columns[m].name != columns[i].name && IsLastNamed(columns, m, i);
          assert ShowsColumn(before, columns[i].name, tuple[i]);
        }
      }
      forall name | name in shown
        ensures IsNamed(columns, n, name)
      {
        assert name == columns[m].name || IsNamed(columns, m, name);
      }
    }
  }

  /** A row of a described table becomes one event, of the table's name and the row's own operation, that
      shows its columns; nothing else changes. */
  lemma RowIsSent(s: Stream, m: PgOutputMessage)
    requires (m.Insert? || m.Update? || m.Delete?) && m.relationId in s.schema
    ensures var t, relation := Handle(s, m, true), s.schema[m.relationId];
            && t.error == None && |t.stream.events| == |s.events| + 1
            && t.stream == s.(events := s.events + [t.stream.events[|s.events|]])
            && var e := t.stream.events[|s.events|];
               && e.table == relation.name
               && (m.Insert? ==> e.operation == InsertOp)
               && (m.Update? ==> e.operation == UpdateOp)
               && (m.Delete? ==> e.operation == DeleteOp)
               && ShowsRow(relation.columns, m.tuple, Min(|relation.columns|, |m.tuple|), e.columns)
  {
    var relation := s.schema[m.relationId];
    ZipShows(relation.columns, m.tuple, Min(|relation.columns|, |m.tuple|));
  }

  /** Every other message sends nothing: a description is kept under its id, a row of a table without one is
      skipped, and a row cannot be sent on a closed channel. */
  lemma OtherwiseNothingIsSent(s: Stream, m: PgOutputMessage, channelOpen: bool)
    ensures m.Begin? || m.Commit? ==> Handle(s, m, channelOpen) == Turned(s, None)
    ensures m.Relation? ==>
              Handle(s, m, channelOpen) == Turned(s.(schema := s.schema[m.info.id := m.info]), None)
    ensures m.Insert? || m.Update? || m.Delete? ==>
              && (m.relationId !in s.schema ==> Handle(s, m, channelOpen) == Turned(s, None))
              && (m.relationId in s.schema && !channelOpen ==>
                    Handle(s, m, channelOpen) == Turned(s, Some(ChannelClosed)))
  {
  }

  /** One second, two, four, eight, sixteen, thirty-two, and then always sixty. */
  lemma {:induction false} BackoffIs(k: nat)
    ensures Backoff(k) == match k case 0 => 1 case 1 => 2 case 2 => 4 case 3 => 8 case 4 => 16 case 5 => 32 case _ => 60
  {
    if k > 0 {
      BackoffIs(k - 1);
    }
  }

  lemma LoopTwo(s: Stream, a: Arrival, b: Arrival)
    requires Turn(s, a).error.None? && Turn(Turn(s, a).stream, b).error.None?
    ensures RunLoop(s, [a, b]).stream == Turn(Turn(s, a).stream, b).stream
  {
    var s1 := Turn(s, a).stream;
    assert [a, b][1..] == [b] && [b][1..] == [];
    assert RunLoop(s1, [b]) == RunLoop(Turn(s1, b).stream, []);
  }

  /** A turn moves the position to be confirmed back exactly when a data frame brings a smaller one:
      that position is assigned, the one of a keep-alive only raises it. */
  lemma PositionGoesBackIff(s: Stream, a: Arrival)
    ensures Turn(s, a).stream.lastLsn < s.lastLsn
            <==> a.frame.Ok? && ReplicationOf(a.frame.value).Ok? && ReplicationOf(a.frame.value).value.XLogData?
                 && ReplicationOf(a.frame.value).value.walEnd < s.lastLsn
  {
    if a.frame.Ok? && ReplicationOf(a.frame.value).Ok? {
      var m := ReplicationOf(a.frame.value).value;
      assert Receive(s, m, a).stream.lastLsn == if m.XLogData? then m.walEnd else Max(s.lastLsn, m.walEnd);
      assert Turn(s, a).stream.lastLsn == Receive(s, m, a).stream.lastLsn;
    }
  }

  /** The events and confirmations added are those of the sessions `done`. */
  ghost predicate RanThrough(before: seq<CdcEvent>, events: seq<CdcEvent>, earlier: seq<Lsn>, statuses: seq<Lsn>,
                             done: seq<Session>) {
    events == before + EventsOf(done) && statuses == earlier + StatusesOf(done)
  }

  lemma NothingYet(events: seq<CdcEvent>, statuses: seq<Lsn>, sessions: seq<Session>)
    ensures RanThrough(events, events, statuses, statuses, sessions[..0])
  {
  }

  lemma OneMoreSession(before: seq<CdcEvent>, events: seq<CdcEvent>, earlier: seq<Lsn>, statuses: seq<Lsn>,
                       sessions: seq<Session>, i: nat)
    requires i < |sessions| && RanThrough(before, events, earlier, statuses, sessions[..i])
    ensures RanThrough(before, events + SessionEvents(sessions[i]), earlier, statuses + SessionStatuses(sessions[i]),
                       sessions[..i + 1])
  {
    var upTo, done := sessions[..i + 1], sessions[..i];
    assert upTo[..|upTo| - 1] == done;
    assert before + (EventsOf(done) + SessionEvents(sessions[i]))
        == before + EventsOf(done) + SessionEvents(sessions[i]);
    assert earlier + (StatusesOf(done) + SessionStatuses(sessions[i]))
        == earlier + StatusesOf(done) + SessionStatuses(sessions[i]);
  }

  lemma BackoffStep(before: seq<nat>, i: nat)
    ensures before + Backoffs(i) + [Backoff(i)] == before + Backoffs(i + 1)
  {
  }

  lemma PerformedStep(sessions: seq<Session>, i: nat)
    requires i < |sessions|
    ensures Performed(sessions[i..]) ==
              if sessions[i].channelClosed then 0
              else if SessionRun(sessions[i]).error == Some(ChannelClosed) then 1
              else 1 + Performed(sessions[i + 1..])
    ensures Retried(sessions[i..]) ==
              if sessions[i].channelClosed || SessionRun(sessions[i]).error == Some(ChannelClosed) then 0
              else 1 + Retried(sessions[i + 1..])
  {
    assert sessions[i..][1..] == sessions[i + 1..];
  }
}
