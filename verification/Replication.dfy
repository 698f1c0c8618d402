/** Delivery over reconnects. The server is an abstract log of committed transactions with a
    confirmed position; the listener is the byte-level one of `Listener`. Whatever breaks a session,
    every row change whose transaction commits at or before a confirmed position has been put on the
    event channel. */
module Replication {
  import opened Prelude
  import opened Bytes
  import opened Protocol
  import opened WireFormat
  import opened Listener
  import opened LsnText

  // ---- The server's log ----

  /** One row change of a table; `relation` is the table's description at that time. */
  datatype Change = Change(relation: RelationInfo, row: WireMessage)

  /** `commit` is the position at which the transaction's commit record ends. */
  datatype Txn = Txn(commit: Lsn, changes: seq<Change>)

  type Log = seq<Txn>

  predicate ValidChange(c: Change) {
    && (c.row.WireInsert? || c.row.WireUpdate? || c.row.WireDelete?)
    && WellFormed(c.row) && c.row.relationId == c.relation.id
  }

  ghost predicate ValidLog(log: Log) {
    && (forall i :: 0 <= i < |log| ==> log[i].commit > 0)
    && (forall i, j :: 0 <= i < j < |log| ==> log[i].commit < log[j].commit)
    && (forall i, j :: 0 <= i < |log| && 0 <= j < |log[i].changes| ==> ValidChange(log[i].changes[j]))
  }

  function ChangeEvent(c: Change): CdcEvent
    requires ValidChange(c)
  {
    EventOf(c.relation, Meaning(c.row))
  }

  /** The event of a change is what the server meant: its operation, its table, and under each column name
      the text it sent for the last column so named, or null if it sent none. */
  lemma ChangeEventIs(c: Change)
    requires ValidChange(c)
    ensures var e := ChangeEvent(c);
            && e.table == c.relation.name
            && (c.row.WireInsert? ==> e.operation == InsertOp)
            && (c.row.WireUpdate? ==> e.operation == UpdateOp)
            && (c.row.WireDelete? ==> e.operation == DeleteOp)
            && var columns, n := c.relation.columns, Min(|c.relation.columns|, |c.row.values|);
               forall i :: 0 <= i < n && IsLastNamed(columns, n, i) ==>
                 SentAs(e.columns, columns[i].name, c.row.values[i])
  {
    var columns, tuple, e := c.relation.columns, Meaning(c.row).tuple, ChangeEvent(c);
    var n := Min(|columns|, |tuple|);
    ZipShows(columns, tuple, n);
    forall i | 0 <= i < n && IsLastNamed(columns, n, i)
      ensures SentAs(e.columns, columns[i].name, c.row.values[i])
    {
      assert ShowsColumn(e.columns, columns[i].name, tuple[i]);
      assert tuple[i] == ValueMeaning(c.row.values[i]);
    }
  }

  predicate SentAs(shown: ColumnMap, name: ByteString, value: WireValue) {
    && name in shown
    && (value.TextValue? ==> shown[name] == Some(value.text))
    && (!value.TextValue? ==> shown[name] == None)
  }

  function ChangeEvents(changes: seq<Change>): (events: seq<CdcEvent>)
    requires forall j :: 0 <= j < |changes| ==> ValidChange(changes[j])
    ensures |events| == |changes|
  {
    seq(|changes|, i requires 0 <= i < |changes| => ChangeEvent(changes[i]))
  }

  /** How many row changes the first `k` transactions hold. */
  function Offset(log: Log, k: nat): nat
    requires k <= |log|
  {
    if k == 0 then 0 else Offset(log, k - 1) + |log[k - 1].changes|
  }

  /** The row changes of the first `k` transactions, in commit order. */
  function EventsUpTo(log: Log, k: nat): (events: seq<CdcEvent>)
    requires ValidLog(log) && k <= |log|
    ensures |events| == Offset(log, k)
  {
    if k == 0 then [] else EventsUpTo(log, k - 1) + ChangeEvents(log[k - 1].changes)
  }

  function LogEvents(log: Log): seq<CdcEvent>
    requires ValidLog(log)
  {
    EventsUpTo(log, |log|)
  }

  /** How many transactions commit at or before `position`. */
  function CommittedBy(log: Log, position: Lsn): (k: nat)
    requires ValidLog(log)
    ensures k <= |log|
    ensures forall i :: 0 <= i < |log| ==> (i < k <==> log[i].commit <= position)
  {
    if log == [] then 0
    else if log[|log| - 1].commit <= position then |log|
    else CommittedBy(log[..|log| - 1], position)
  }

  lemma {:induction false} OffsetMonotone(log: Log, j: nat, k: nat)
    requires j <= k <= |log|
    ensures Offset(log, j) <= Offset(log, k)
  {
    if j < k {
      OffsetMonotone(log, j, k - 1);
    }
  }

  lemma {:induction false} EventsPrefix(log: Log, k: nat, m: nat)
    requires ValidLog(log) && k <= m <= |log|
    ensures EventsUpTo(log, k) <= EventsUpTo(log, m)
  {
    if k < m {
      EventsPrefix(log, k, m - 1);
    }
  }

  /** Where a row change stands among the log's events. */
  lemma EventAt(log: Log, k: nat, i: nat)
    requires ValidLog(log) && k < |log| && i < |log[k].changes|
    ensures Offset(log, k) + i < Offset(log, |log|)
    ensures LogEvents(log)[Offset(log, k) + i] == ChangeEvent(log[k].changes[i])
  {
    EventsPrefix(log, k + 1, |log|);
    assert EventsUpTo(log, k + 1)[Offset(log, k) + i] == ChangeEvent(log[k].changes[i]);
  }

  // ---- What a session's server may send ----

  /** Header fields of an XLogData frame. */
  datatype Header = Header(walStart: Word64, walEnd: Word64, serverTime: Word64)

  datatype Action =
    | SendKeepAlive(keepAliveEnd: Word64, keepAliveTime: Word64, reply: Byte)
    | SendBegin(header: Header, begin: WireMessage)
    | SendRelation(header: Header, relation: WireMessage)
    | SendRow(header: Header)
    | SendCommit(header: Header, commit: WireMessage)
    | SendOther(header: Header, payload: ByteString)

  /** The transaction being sent, how many of its changes have been, and the table descriptions the
      client has been given in this session. */
  datatype ServerState = ServerState(txn: nat, change: nat, known: map<Word32, RelationInfo>)

  /** Every row change that commits at or before `position` is among the first `sent` ones of the log;
      `NothingUnsentIff` says so change by change. */
  predicate NothingUnsent(log: Log, sent: nat, position: Lsn)
    requires ValidLog(log)
  {
    Offset(log, CommittedBy(log, position)) <= sent
  }

  lemma NothingUnsentIff(log: Log, sent: nat, position: Lsn)
    requires ValidLog(log)
    ensures NothingUnsent(log, sent, position) <==> forall k, i :: IsChange(log, k, i) && log[k].commit <= position
                                                               ==> Offset(log, k) + i < sent
  {
    var due := CommittedBy(log, position);
    forall k, i | IsChange(log, k, i) && log[k].commit <= position
      ensures Offset(log, k) + i < Offset(log, due)
    {
      OffsetMonotone(log, k + 1, due);
    }
    if Offset(log, due) > sent {
      var k, i := LastChange(log, due);
      assert IsChange(log, k, i) && log[k].commit <= position;
    }
  }

  predicate IsChange(log: Log, k: int, i: int) { 0 <= k < |log| && 0 <= i < |log[k].changes| }

  /** The last row change of the first `n` transactions, if they have one. */
  lemma {:induction false} LastChange(log: Log, n: nat) returns (k: nat, i: nat)
    requires n <= |log| && Offset(log, n) > 0
    ensures k < n && IsChange(log, k, i) && Offset(log, k) + i == Offset(log, n) - 1
  {
    if log[n - 1].changes == [] {
      k, i := LastChange(log, n - 1);
    } else {
      k, i := n - 1, |log[n - 1].changes| - 1;
    }
  }

  lemma CommittedByMonotone(log: Log, p: Lsn, q: Lsn)
    requires ValidLog(log) && p <= q
    ensures CommittedBy(log, p) <= CommittedBy(log, q)
    ensures Offset(log, CommittedBy(log, p)) <= Offset(log, CommittedBy(log, q))
  {
    var n := CommittedBy(log, p);
    assert n > 0 ==> log[n - 1].commit <= p;
    OffsetMonotone(log, n, CommittedBy(log, q));
  }

  ghost predicate Consistent(log: Log, st: ServerState) {
    && st.txn <= |log|
    && (st.txn == |log| ==> st.change == 0)
    && (st.txn < |log| ==> st.change <= |log[st.txn].changes|)
  }

  function Next(st: ServerState, a: Action): ServerState {
    match a
    case SendRelation(_, relation) =>
      if relation.WireRelation? then st.(known := st.known[relation.id := Meaning(relation).info]) else st
    case SendRow(_) => st.(change := st.change + 1)
    case SendCommit(_, _) => st.(txn := st.txn + 1, change := 0)
    case _ => st
  }

  /** How many of the log's changes have been sent. */
  function Pos(log: Log, st: ServerState): nat
    requires st.txn <= |log|
  {
    Offset(log, st.txn) + st.change
  }

  /** What the server may send next, the positions it announces aside: transactions whole and in commit
      order, and a table's description before the first change of that table. */
  ghost predicate Shaped(log: Log, st: ServerState, a: Action) {
    && Consistent(log, st)
    && match a
       case SendKeepAlive(_, _, _) => true
       case SendBegin(_, m) => m.WireBegin?
       case SendRelation(_, m) => m.WireRelation? && WellFormed(m)
       case SendRow(_) =>
         && st.txn < |log| && st.change < |log[st.txn].changes|
         && var c := log[st.txn].changes[st.change];
            c.relation.id in st.known && st.known[c.relation.id] == c.relation
       case SendCommit(_, m) => m.WireCommit? && st.txn < |log| && st.change == |log[st.txn].changes|
       case SendOther(_, payload) => MessageOf(payload) == Ok(None)
  }

  function Announced(a: Action): Lsn { if a.SendKeepAlive? then a.keepAliveEnd else a.header.walEnd }

  /** The server's obligations: the right messages, and no position at or past the commit of a row change
      that it has still to send. */
  ghost predicate Allowed(log: Log, st: ServerState, a: Action)
    requires ValidLog(log)
  {
    Shaped(log, st, a) && NothingUnsent(log, Pos(log, Next(st, a)), Announced(a))
  }

  /** The bytes of the CopyData payload for an action. */
  function FrameOf(log: Log, st: ServerState, a: Action): ByteString
    requires ValidLog(log)
  {
    match a
    case SendKeepAlive(walEnd, time, reply) => EncodeFrame(WireKeepAlive(walEnd, time, reply))
    case SendBegin(h, m) => if WellFormed(m) then XLog(h, EncodeMessage(m)) else []
    case SendRelation(h, m) => if WellFormed(m) then XLog(h, EncodeMessage(m)) else []
    case SendRow(h) =>
      if st.txn < |log| && st.change < |log[st.txn].changes|
      then XLog(h, EncodeMessage(log[st.txn].changes[st.change].row)) else []
    case SendCommit(h, m) => if WellFormed(m) then XLog(h, EncodeMessage(m)) else []
    case SendOther(h, payload) => XLog(h, payload)
  }

  function XLog(h: Header, data: ByteString): ByteString {
    EncodeFrame(WireXLogData(h.walStart, h.walEnd, h.serverTime, data))
  }

  /** `arrivals` is what a server in state `st` may have sent, up to the point where the session
      breaks: a read error, or any bytes at all that do not parse, and nothing is said of the rest. */
  ghost predicate Served(log: Log, st: ServerState, arrivals: seq<Arrival>)
    requires ValidLog(log)
    decreases |arrivals|
  {
    || arrivals == []
    || Breaks(arrivals[0].frame)
    || exists a: Action :: ServedBy(log, st, a, arrivals[0]) && Served(log, Next(st, a), arrivals[1..])
  }

  ghost predicate ServedBy(log: Log, st: ServerState, a: Action, arrival: Arrival)
    requires ValidLog(log)
  {
    Allowed(log, st, a) && arrival.frame == Ok(FrameOf(log, st, a))
  }

  /** The session cannot go on after reading this, whatever the listener's state. */
  predicate Breaks(frame: Result<ByteString, CdcError>) {
    match frame
    case Err(_) => true
    case Ok(bytes) =>
      match ReplicationOf(bytes)
      case Err(_) => true
      case Ok(KeepAlive(_, _)) => false
      case Ok(XLogData(_, data)) => MessageOf(data).Err?
  }

  // ---- One session ----

  /** The listener has the events of the log from transaction `first` up to `st`, and the same table
      descriptions as the server. */
  ghost predicate Following(log: Log, first: nat, st: ServerState, s: Stream)
    requires ValidLog(log)
  {
    && Consistent(log, st) && first <= st.txn
    && s.schema == st.known
    && Offset(log, first) <= Pos(log, st) <= Offset(log, |log|)
    && s.events == LogEvents(log)[Offset(log, first)..Pos(log, st)]
  }

  /** And no position it has confirmed, or may confirm next, is past a row change still to be sent. */
  ghost predicate InStep(log: Log, first: nat, st: ServerState, s: Stream)
    requires ValidLog(log)
  {
    && Following(log, first, st, s)
    && NothingUnsent(log, Pos(log, st), s.lastLsn)
    && forall r :: r in s.statuses ==> NothingUnsent(log, Pos(log, st), r)
  }

  /** What is true when the session has ended: its events are a stretch of the log's, and that
      stretch reaches past every transaction covered by a confirmation. */
  ghost predicate Delivered(log: Log, first: nat, s: Stream)
    requires ValidLog(log) && first <= |log|
  {
    var to := Offset(log, first) + |s.events|;
    && to <= Offset(log, |log|)
    && s.events == LogEvents(log)[Offset(log, first)..to]
    && forall r :: r in s.statuses ==> Offset(log, CommittedBy(log, r)) <= to
  }

  lemma InStepDelivers(log: Log, first: nat, st: ServerState, s: Stream)
    requires ValidLog(log) && first <= |log| && InStep(log, first, st, s)
    ensures Delivered(log, first, s)
  {
  }

  /** The listener decodes what the server encoded. */
  lemma Decoded(log: Log, st: ServerState, a: Action)
    requires ValidLog(log) && Shaped(log, st, a)
    ensures if a.SendKeepAlive? then ReplicationOf(FrameOf(log, st, a)) == Ok(KeepAlive(a.keepAliveEnd, a.reply != 0))
            else Carries(FrameOf(log, st, a), a.header.walEnd, Carried(log, st, a))
  {
    match a
    case SendKeepAlive(walEnd, time, reply) => FrameRoundTrip(WireKeepAlive(walEnd, time, reply));
    case SendBegin(h, m) => MessageCarried(h, m);
    case SendRelation(h, m) => MessageCarried(h, m);
    case SendRow(h) => MessageCarried(h, log[st.txn].changes[st.change].row);
    case SendCommit(h, m) => MessageCarried(h, m);
    case SendOther(h, payload) => FrameRoundTrip(WireXLogData(h.walStart, h.walEnd, h.serverTime, payload));
  }

  predicate Carries(bytes: ByteString, walEnd: Lsn, m: Option<PgOutputMessage>) {
    match ReplicationOf(bytes)
    case Ok(XLogData(end, data)) => end == walEnd && MessageOf(data) == Ok(m)
    case _ => false
  }

  lemma MessageCarried(h: Header, m: WireMessage)
    requires WellFormed(m)
    ensures Carries(XLog(h, EncodeMessage(m)), h.walEnd, Some(Meaning(m)))
  {
    FrameRoundTrip(WireXLogData(h.walStart, h.walEnd, h.serverTime, EncodeMessage(m)));
    MessageRoundTrip(m, []);
    assert EncodeMessage(m) + [] == EncodeMessage(m);
  }

  /** One turn keeps the listener in step; if the turn ends the session, what was delivered stands. */
  lemma TurnKeepsStep(log: Log, first: nat, st: ServerState, s: Stream, a: Action, arrival: Arrival)
    requires ValidLog(log) && first <= |log| && InStep(log, first, st, s) && ServedBy(log, st, a, arrival)
    ensures var t := Turn(s, arrival);
            if t.error.None? then InStep(log, first, Next(st, a), t.stream) else Delivered(log, first, t.stream)
  {
    var t := Turn(s, arrival);
    var m := ReplicationOf(arrival.frame.value);
    Decoded(log, st, a);
    var received := Receive(s, m.value, arrival);
    ReceiveKeepsStep(log, first, st, s, a, arrival);
    if received.error.None? {
      ConfirmKeepsStep(log, first, Next(st, a), received.stream, arrival.writesOk);
    }
    if t.error.Some? && InStep(log, first, Next(st, a), t.stream) {
      InStepDelivers(log, first, Next(st, a), t.stream);
    }
  }

  lemma ConfirmKeepsStep(log: Log, first: nat, st: ServerState, s: Stream, writesOk: bool)
    requires ValidLog(log) && first <= |log| && InStep(log, first, st, s)
    ensures InStep(log, first, st, Confirm(s, writesOk).stream)
  {
  }

  lemma ReceiveKeepsStep(log: Log, first: nat, st: ServerState, s: Stream, a: Action, arrival: Arrival)
    requires ValidLog(log) && first <= |log| && InStep(log, first, st, s) && ServedBy(log, st, a, arrival)
    requires ReplicationOf(FrameOf(log, st, a)).Ok?
    ensures var t := Receive(s, ReplicationOf(FrameOf(log, st, a)).value, arrival);
            if t.error.None? || t.error == Some(Io) then InStep(log, first, Next(st, a), t.stream)
            else Delivered(log, first, t.stream)
  {
    Decoded(log, st, a);
    match a
    case SendKeepAlive(walEnd, _, _) =>
      ConfirmKeepsStep(log, first, st, s.(lastLsn := Max(s.lastLsn, walEnd)), arrival.writesOk);
    case _ =>
      ReceiveCarried(s, FrameOf(log, st, a), a.header.walEnd, Carried(log, st, a), arrival);
      AcceptKeepsStep(log, first, st, s, a, arrival.channelOpen);
  }

  /** The message an XLogData action carries, decoded. */
  function Carried(log: Log, st: ServerState, a: Action): Option<PgOutputMessage>
    requires !a.SendKeepAlive?
  {
    match a
    case SendBegin(_, _) => Some(Begin)
    case SendRelation(_, m) => Some(Meaning(m))
    case SendRow(_) =>
      if st.txn < |log| && st.change < |log[st.txn].changes|
      then Some(Meaning(log[st.txn].changes[st.change].row)) else None
    case SendCommit(_, _) => Some(Commit)
    case SendOther(_, _) => None
  }

  lemma ReceiveCarried(s: Stream, bytes: ByteString, walEnd: Lsn, m: Option<PgOutputMessage>, a: Arrival)
    requires Carries(bytes, walEnd, m)
    ensures Receive(s, ReplicationOf(bytes).value, a) == Accept(s.(lastLsn := walEnd), m, a.channelOpen)
  {
  }

  /** Whatever position is announced, the listener follows; only a closed channel stops it. */
  lemma AcceptFollows(log: Log, first: nat, st: ServerState, s: Stream, a: Action, channelOpen: bool)
    requires ValidLog(log) && first <= |log| && Following(log, first, st, s)
    requires Shaped(log, st, a) && !a.SendKeepAlive?
    ensures var s1 := s.(lastLsn := a.header.walEnd);
            var t := Accept(s1, Carried(log, st, a), channelOpen);
            && t.stream.statuses == s.statuses && t.stream.lastLsn == a.header.walEnd
            && (t.error.None? ==> Following(log, first, Next(st, a), t.stream))
            && (t.error.Some? ==> t == Turned(s1, Some(ChannelClosed)) && !channelOpen)
  {
    match a
    case SendRow(h) => RowFollows(log, first, st, s.(lastLsn := h.walEnd), channelOpen);
    case _ =>
  }

  lemma RowFollows(log: Log, first: nat, st: ServerState, s: Stream, channelOpen: bool)
    requires ValidLog(log) && first <= |log| && Following(log, first, st, s)
    requires st.txn < |log| && st.change < |log[st.txn].changes|
    requires var c := log[st.txn].changes[st.change]; c.relation.id in st.known && st.known[c.relation.id] == c.relation
    ensures var t := Handle(s, Meaning(log[st.txn].changes[st.change].row), channelOpen);
            && (channelOpen ==> t.error.None? && Following(log, first, st.(change := st.change + 1), t.stream)
                                && t.stream.statuses == s.statuses && t.stream.lastLsn == s.lastLsn)
            && (!channelOpen ==> t == Turned(s, Some(ChannelClosed)))
  {
    NextEvent(log, first, st);
    EventAt(log, st.txn, st.change);
  }

  lemma NextEvent(log: Log, first: nat, st: ServerState)
    requires ValidLog(log) && first <= st.txn < |log| && st.change < |log[st.txn].changes|
    requires Offset(log, first) <= Pos(log, st)
    ensures var from, to := Offset(log, first), Pos(log, st);
            && to < |LogEvents(log)|
            && LogEvents(log)[from..to] + [ChangeEvent(log[st.txn].changes[st.change])] == LogEvents(log)[from..to + 1]
  {
    EventAt(log, st.txn, st.change);
  }

  lemma AcceptKeepsStep(log: Log, first: nat, st: ServerState, s: Stream, a: Action, channelOpen: bool)
    requires ValidLog(log) && first <= |log| && InStep(log, first, st, s) && Allowed(log, st, a) && !a.SendKeepAlive?
    ensures var t := Accept(s.(lastLsn := a.header.walEnd), Carried(log, st, a), channelOpen);
            if t.error.None? then InStep(log, first, Next(st, a), t.stream)
            else t.error == Some(ChannelClosed) && Delivered(log, first, t.stream)
  {
    AcceptFollows(log, first, st, s, a, channelOpen);
    InStepDelivers(log, first, st, s);
    assert Pos(log, st) <= Pos(log, Next(st, a));
  }

  /** A breaking arrival ends the session without another event or confirmation. */
  lemma BreakEnds(s: Stream, arrival: Arrival)
    requires Breaks(arrival.frame)
    ensures var t := Turn(s, arrival); t.error.Some? && t.stream.events == s.events && t.stream.statuses == s.statuses
  {
  }

  /** A whole session, however it ends. */
  lemma {:induction false} LoopDelivers(log: Log, first: nat, st: ServerState, s: Stream, arrivals: seq<Arrival>)
    requires ValidLog(log) && first <= |log| && InStep(log, first, st, s) && Served(log, st, arrivals)
    ensures Delivered(log, first, RunLoop(s, arrivals).stream)
    decreases |arrivals|
  {
    if arrivals == [] || Breaks(arrivals[0].frame) {
      LoopEnds(log, first, st, s, arrivals);
    } else {
      var a, t := LoopGoesOn(log, first, st, s, arrivals);
      if t.error.None? {
        LoopDelivers(log, first, Next(st, a), t.stream, arrivals[1..]);
      }
    }
  }

  lemma LoopEnds(log: Log, first: nat, st: ServerState, s: Stream, arrivals: seq<Arrival>)
    requires ValidLog(log) && first <= |log| && InStep(log, first, st, s)
    requires arrivals == [] || Breaks(arrivals[0].frame)
    ensures Delivered(log, first, RunLoop(s, arrivals).stream)
  {
    InStepDelivers(log, first, st, s);
    if arrivals != [] {
      BreakEnds(s, arrivals[0]);
    }
  }

  lemma LoopGoesOn(log: Log, first: nat, st: ServerState, s: Stream, arrivals: seq<Arrival>)
    returns (a: Action, t: Turned)
    requires ValidLog(log) && first <= |log| && InStep(log, first, st, s)
    requires Served(log, st, arrivals) && arrivals != [] && !Breaks(arrivals[0].frame)
    ensures RunLoop(s, arrivals) == if t.error.Some? then t else RunLoop(t.stream, arrivals[1..])
    ensures if t.error.None? then InStep(log, first, Next(st, a), t.stream) else Delivered(log, first, t.stream)
    ensures Served(log, Next(st, a), arrivals[1..])
  {
    a :| ServedBy(log, st, a, arrivals[0]) && Served(log, Next(st, a), arrivals[1..]);
    t := Turn(s, arrivals[0]);
    TurnKeepsStep(log, first, st, s, a, arrivals[0]);
  }

  // ---- The position obligation is exact ----

  /** A turn in which a status is due, and nothing else is wrong. */
  function Due(bytes: ByteString): Arrival { Arrival(Ok(bytes), true, true, true) }

  /** Such a turn confirms the announced position, or the greater one that was held before a keep-alive. */
  lemma DueConfirms(log: Log, first: nat, st: ServerState, s: Stream, a: Action)
    requires ValidLog(log) && first <= |log| && Following(log, first, st, s) && Shaped(log, st, a)
    ensures var position := if a.SendKeepAlive? then Max(s.lastLsn, Announced(a)) else Announced(a);
            var t := Turn(s, Due(FrameOf(log, st, a)));
            && t.error.None? && Following(log, first, Next(st, a), t.stream)
            && (position > 0 ==> position in t.stream.statuses)
  {
    Decoded(log, st, a);
    if !a.SendKeepAlive? {
      var arrival := Due(FrameOf(log, st, a));
      ReceiveCarried(s, FrameOf(log, st, a), a.header.walEnd, Carried(log, st, a), arrival);
      AcceptFollows(log, first, st, s, a, true);
    }
  }

  /** Announced too early, a position can be confirmed while one of its row changes is still unsent. */
  lemma TooEarly(log: Log, first: nat, st: ServerState, s: Stream, a: Action)
    requires ValidLog(log) && first <= |log| && InStep(log, first, st, s) && Shaped(log, st, a)
    requires !NothingUnsent(log, Pos(log, Next(st, a)), Announced(a))
    ensures var t := Turn(s, Due(FrameOf(log, st, a))); t.error.None? && !Delivered(log, first, t.stream)
  {
    var w, s' := Announced(a), Turn(s, Due(FrameOf(log, st, a))).stream;
    DueConfirms(log, first, st, s, a);
    if w <= s.lastLsn {
      CommittedByMonotone(log, w, s.lastLsn);
    }
    assert CommittedBy(log, w) > 0;
    assert w in s'.statuses;
    assert Offset(log, first) + |s'.events| == Pos(log, Next(st, a));
  }

  lemma InTimeStaysDelivered(log: Log, first: nat, st: ServerState, s: Stream, a: Action, arrival: Arrival)
    requires ValidLog(log) && first <= |log| && InStep(log, first, st, s) && ServedBy(log, st, a, arrival)
    ensures Delivered(log, first, Turn(s, arrival).stream)
  {
    TurnKeepsStep(log, first, st, s, a, arrival);
    if Turn(s, arrival).error.None? {
      InStepDelivers(log, first, Next(st, a), Turn(s, arrival).stream);
    }
  }

  /** For a listener in step and any message of the right shape: whatever the timing of statuses, failing
      writes and the event channel, the turn leaves everything confirmed delivered if and only if no row
      change still unsent commits at or before the position that the message announces. */
  lemma DeliveredIff(log: Log, first: nat, st: ServerState, s: Stream, a: Action)
    requires ValidLog(log) && first <= |log| && InStep(log, first, st, s) && Shaped(log, st, a)
    ensures (forall arrival: Arrival :: arrival.frame == Ok(FrameOf(log, st, a))
                                    ==> Delivered(log, first, Turn(s, arrival).stream))
            <==> forall k, i :: IsChange(log, k, i) && log[k].commit <= Announced(a)
                            ==> Offset(log, k) + i < Pos(log, Next(st, a))
  {
    NothingUnsentIff(log, Pos(log, Next(st, a)), Announced(a));
    if NothingUnsent(log, Pos(log, Next(st, a)), Announced(a)) {
      forall arrival: Arrival | arrival.frame == Ok(FrameOf(log, st, a))
        ensures Delivered(log, first, Turn(s, arrival).stream)
      {
        InTimeStaysDelivered(log, first, st, s, a, arrival);
      }
    } else {
      TooEarly(log, first, st, s, a);
      assert Due(FrameOf(log, st, a)).frame == Ok(FrameOf(log, st, a));
    }
  }

  lemma OneChange(log: Log, c: Change)
    requires ValidChange(c) && log == [Txn(100, [c])]
    ensures ValidLog(log) && LogEvents(log) == [ChangeEvent(c)] && Owed(log, 100) == 1
  {
    assert EventsUpTo(log, 1) == EventsUpTo(log, 0) + ChangeEvents(log[0].changes);
    assert Offset(log, 1) == 1 && CommittedBy(log, 100) == 1;
  }

  /** Column `name` last occurs, among the first `n` columns, where the row has `cell`. */
  ghost predicate LastShows(columns: seq<ColumnInfo>, tuple: seq<TupleValue>, n: nat, name: ByteString,
                            cell: Option<ByteString>)
    requires n <= |columns| && n <= |tuple|
  {
    exists i :: 0 <= i < n && ShowsAt(columns, tuple, i, name, cell) && NotNamedAfter(columns, i, n, name)
  }

  predicate ShowsAt(columns: seq<ColumnInfo>, tuple: seq<TupleValue>, i: nat, name: ByteString,
                    cell: Option<ByteString>)
    requires i < |columns| && i < |tuple|
  {
    columns[i].name == name && CellOf(tuple[i]) == cell
  }

  predicate NotNamedAfter(columns: seq<ColumnInfo>, i: nat, n: nat, name: ByteString)
    requires n <= |columns|
  {
    forall j :: i < j < n ==> columns[j].name != name
  }

  lemma {:induction false} ZipShowsLast(columns: seq<ColumnInfo>, tuple: seq<TupleValue>, n: nat, name: ByteString,
                                        cell: Option<ByteString>)
    requires n <= |columns| && n <= |tuple|
    ensures name in ZipColumns(columns, tuple, n) && ZipColumns(columns, tuple, n)[name] == cell
            <==> LastShows(columns, tuple, n, name, cell)
  {
    if n > 0 {
      ZipShowsLast(columns, tuple, n - 1, name, cell);
      if columns[n - 1].name == name {
        if CellOf(tuple[n - 1]) == cell {
          assert ShowsAt(columns, tuple, n - 1, name, cell) && NotNamedAfter(columns, n - 1, n, name);
        }
      } else {
        LastShowsEarlier(columns, tuple, n, name, cell);
      }
    }
  }

  lemma LastShowsEarlier(columns: seq<ColumnInfo>, tuple: seq<TupleValue>, n: nat, name: ByteString,
                         cell: Option<ByteString>)
    requires 0 < n <= |columns| && n <= |tuple| && columns[n - 1].name != name
    ensures LastShows(columns, tuple, n, name, cell) <==> LastShows(columns, tuple, n - 1, name, cell)
  {
    if LastShows(columns, tuple, n - 1, name, cell) {
      var i :| 0 <= i < n - 1 && ShowsAt(columns, tuple, i, name, cell) && NotNamedAfter(columns, i, n - 1, name);
      assert NotNamedAfter(columns, i, n, name);
    }
    if LastShows(columns, tuple, n, name, cell) {
      var i :| 0 <= i < n && ShowsAt(columns, tuple, i, name, cell) && NotNamedAfter(columns, i, n, name);
      assert NotNamedAfter(columns, i, n - 1, name);
    }
  }

  /** Two descriptions of a table say the same about a row: the same table name, and under every column
      name, where it last occurs, the same cell. */
  ghost predicate SameMeaning(known: RelationInfo, relation: RelationInfo, tuple: seq<TupleValue>) {
    && known.name == relation.name
    && forall name: ByteString, cell: Option<ByteString> ::
         LastShows(known.columns, tuple, Min(|known.columns|, |tuple|), name, cell)
         <==> LastShows(relation.columns, tuple, Min(|relation.columns|, |tuple|), name, cell)
  }

  lemma SameEventIff(known: RelationInfo, relation: RelationInfo, m: PgOutputMessage)
    requires m.Insert? || m.Update? || m.Delete?
    ensures EventOf(known, m) == EventOf(relation, m) <==> SameMeaning(known, relation, m.tuple)
  {
    var left, right := BuildColumnMap(known, m.tuple), BuildColumnMap(relation, m.tuple);
    forall name: ByteString, cell: Option<ByteString>
      ensures name in left && left[name] == cell
              <==> LastShows(known.columns, m.tuple, Min(|known.columns|, |m.tuple|), name, cell)
      ensures name in right && right[name] == cell
              <==> LastShows(relation.columns, m.tuple, Min(|relation.columns|, |m.tuple|), name, cell)
    {
      ZipShowsLast(known.columns, m.tuple, Min(|known.columns|, |m.tuple|), name, cell);
      ZipShowsLast(relation.columns, m.tuple, Min(|relation.columns|, |m.tuple|), name, cell);
    }
    if SameMeaning(known, relation, m.tuple) {
      forall name | name in left || name in right
        ensures name in left && name in right && left[name] == right[name]
      {
        var cell := if name in left then left[name] else right[name];
        assert LastShows(known.columns, m.tuple, Min(|known.columns|, |m.tuple|), name, cell);
      }
      assert left == right;
    }
  }

  /** The obligation to describe tables: the next row change becomes the next event of the log if and only if
      the listener has a description of its table that says of the row what the table's own one says; without
      any, the row is skipped and no error says so. */
  lemma RowDeliveredIff(log: Log, first: nat, st: ServerState, s: Stream)
    requires ValidLog(log) && first <= |log| && Following(log, first, st, s)
    requires st.txn < |log| && st.change < |log[st.txn].changes|
    ensures Pos(log, st) < |LogEvents(log)|
    ensures var c := log[st.txn].changes[st.change];
            var t := Handle(s, Meaning(c.row), true);
            && t.error.None?
            && (t.stream.events == LogEvents(log)[Offset(log, first)..Pos(log, st) + 1]
                <==> c.relation.id in st.known
                     && SameMeaning(st.known[c.relation.id], c.relation, Meaning(c.row).tuple))
            && (c.relation.id !in st.known ==> t.stream == s)
  {
    var c := log[st.txn].changes[st.change];
    NextEvent(log, first, st);
    if c.relation.id in st.known {
      SameEventIff(st.known[c.relation.id], c.relation, Meaning(c.row));
      NextIs(s.events, EventOf(st.known[c.relation.id], Meaning(c.row)), ChangeEvent(c));
    }
  }

  lemma NextIs(events: seq<CdcEvent>, e: CdcEvent, e': CdcEvent)
    ensures events + [e] == events + [e'] <==> e == e'
  {
    assert (events + [e])[|events|] == e && (events + [e'])[|events|] == e';
  }

  /** The failing input: the server begins the one transaction of its log and announces its commit. The
      listener confirms it without having the change, and a server that goes on from there owes nothing. */
  lemma AnnouncedTooEarly(c: Change, begin: WireMessage)
    requires ValidChange(c) && begin.WireBegin?
    ensures var log := [Txn(100, [c])];
            var a := SendBegin(Header(0, 100, 0), begin);
            var t := Turn(FRESH, Due(FrameOf(log, ServerState(0, 0, map[]), a)));
            && ValidLog(log) && Shaped(log, ServerState(0, 0, map[]), a)
            && t == Turned(Stream(map[], 100, [], [100]), None)
            && !Delivered(log, 0, t.stream)
            && LogEvents(log) == [ChangeEvent(c)] && Owed(log, 100) == |LogEvents(log)|
  {
    var log := [Txn(100, [c])];
    var st, a := ServerState(0, 0, map[]), SendBegin(Header(0, 100, 0), begin);
    MessageCarried(a.header, begin);
    ReceiveCarried(FRESH, FrameOf(log, st, a), 100, Some(Begin), Due(FrameOf(log, st, a)));
    OneChange(log, c);
    assert 100 in [100];
  }

  // ---- Sessions over reconnects ----

  /** Where the server starts: never before the confirmed position (section 55.4, START_REPLICATION).
      The request is the text the listener sends for the position it read from the slot. */
  function StartPosition(slotText: string, confirmed: Lsn): int {
    if ParseLsn(slotText) < TWO_64 then Max(ParseLsn(FormatLsn(ParseLsn(slotText))), confirmed) else confirmed
  }

  /** The slot keeps WAL from a position at or before the confirmed one, and the server serves every
      transaction committing after the start position. */
  ghost predicate ServedSession(log: Log, confirmed: Lsn, s: Session)
    requires ValidLog(log)
  {
    s.setup.Ok? ==>
      && ParseLsn(s.setup.value) <= confirmed
      && StartPosition(s.setup.value, confirmed) < TWO_64
      && Served(log, ServerState(CommittedBy(log, StartPosition(s.setup.value, confirmed)), 0, map[]), s.arrivals)
  }

  /** A session from one confirmed position to the next: the old one, or one the listener wrote. */
  ghost predicate ServedStep(log: Log, before: Lsn, s: Session, after: Lsn)
    requires ValidLog(log)
  {
    ServedSession(log, before, s) && (after == before || after in SessionStatuses(s))
  }

  /** `confirmed[n]` is the server's confirmed position when session `n` starts, the last entry the one
      after all of them. It may go back: `Confirmations` says when. */
  ghost predicate ServedHistory(log: Log, confirmed: seq<Lsn>, sessions: seq<Session>) {
    && ValidLog(log) && |confirmed| == |sessions| + 1
    && forall n :: 0 <= n < |sessions| ==> ServedStep(log, confirmed[n], sessions[n], confirmed[n + 1])
  }

  /** The first event the server still owes when it has `confirmed`. */
  function Owed(log: Log, confirmed: Lsn): nat
    requires ValidLog(log)
  {
    Offset(log, CommittedBy(log, confirmed))
  }

  lemma SessionDelivers(log: Log, confirmed: Lsn, s: Session)
    requires ValidLog(log) && ServedSession(log, confirmed, s)
    ensures Delivered(log, CommittedBy(log, confirmed), SessionRun(s).stream)
  {
    var first := CommittedBy(log, confirmed);
    OffsetMonotone(log, first, |log|);
    InStepDelivers(log, first, ServerState(first, 0, map[]), FRESH);
    if s.setup.Ok? {
      LsnRoundTrip(ParseLsn(s.setup.value));
      assert StartPosition(s.setup.value, confirmed) == confirmed;
      LoopDelivers(log, first, ServerState(first, 0, map[]), FRESH, s.arrivals);
    }
  }

  /** Session `n` delivers one unbroken stretch of the log's events, starting at the first owed one,
      and the next session starts inside or right after that stretch: no session leaves a gap. */
  lemma SessionsOverlap(log: Log, confirmed: seq<Lsn>, sessions: seq<Session>, n: nat)
    requires ServedHistory(log, confirmed, sessions) && n < |sessions|
    ensures var from := Owed(log, confirmed[n]);
            var to := from + |SessionEvents(sessions[n])|;
            && to <= |LogEvents(log)|
            && SessionEvents(sessions[n]) == LogEvents(log)[from..to]
            && Owed(log, confirmed[n + 1]) <= to
  {
    assert ServedStep(log, confirmed[n], sessions[n], confirmed[n + 1]);
    SessionDelivers(log, confirmed[n], sessions[n]);
  }

  lemma {:induction false} CoveringSession(log: Log, confirmed: seq<Lsn>, sessions: seq<Session>, x: nat)
    returns (n: nat)
    requires ServedHistory(log, confirmed, sessions)
    requires Owed(log, confirmed[0]) <= x < Owed(log, confirmed[|sessions|])
    ensures n < |sessions|
    ensures Owed(log, confirmed[n]) <= x < Owed(log, confirmed[n]) + |SessionEvents(sessions[n])|
    decreases |sessions|
  {
    n := |sessions| - 1;
    if x < Owed(log, confirmed[n]) {
      HistoryPrefix(log, confirmed, sessions, n);
      n := CoveringSession(log, confirmed[..n + 1], sessions[..n], x);
    } else {
      SessionsOverlap(log, confirmed, sessions, n);
    }
  }

  lemma HistoryPrefix(log: Log, confirmed: seq<Lsn>, sessions: seq<Session>, n: nat)
    requires ServedHistory(log, confirmed, sessions) && n <= |sessions|
    ensures ServedHistory(log, confirmed[..n + 1], sessions[..n])
  {
  }

  lemma {:induction false} SessionEventsAppear(sessions: seq<Session>, n: nat, e: CdcEvent)
    requires n < |sessions| && e in SessionEvents(sessions[n])
    ensures e in EventsOf(sessions)
  {
    if n < |sessions| - 1 {
      SessionEventsAppear(sessions[..|sessions| - 1], n, e);
    }
  }

  lemma SessionEventAt(log: Log, confirmed: seq<Lsn>, sessions: seq<Session>, n: nat, x: nat)
    requires ServedHistory(log, confirmed, sessions) && n < |sessions|
    requires Owed(log, confirmed[n]) <= x < Owed(log, confirmed[n]) + |SessionEvents(sessions[n])|
    ensures x < |LogEvents(log)| && LogEvents(log)[x] in SessionEvents(sessions[n])
  {
    SessionsOverlap(log, confirmed, sessions, n);
    StretchAt(LogEvents(log), SessionEvents(sessions[n]), Owed(log, confirmed[n]), x);
  }

  lemma StretchAt(all: seq<CdcEvent>, part: seq<CdcEvent>, from: nat, x: nat)
    requires from + |part| <= |all| && part == all[from..from + |part|]
    requires from <= x < from + |part|
    ensures all[x] in part
  {
    assert part[x - from] == all[x];
  }

  lemma EventDelivered(log: Log, confirmed: seq<Lsn>, sessions: seq<Session>, x: nat)
    requires ServedHistory(log, confirmed, sessions)
    requires Owed(log, confirmed[0]) <= x < Owed(log, confirmed[|sessions|])
    ensures x < |LogEvents(log)| && LogEvents(log)[x] in EventsOf(sessions)
  {
    var n := CoveringSession(log, confirmed, sessions, x);
    SessionEventAt(log, confirmed, sessions, n, x);
    SessionEventsAppear(sessions, n, LogEvents(log)[x]);
  }

  lemma OwedBounds(log: Log, before: Lsn, after: Lsn, k: nat, i: nat)
    requires ValidLog(log) && k < |log| && i < |log[k].changes|
    requires before < log[k].commit <= after
    ensures Owed(log, before) <= Offset(log, k) + i < Owed(log, after)
  {
    OffsetMonotone(log, CommittedBy(log, before), k);
    OffsetMonotone(log, k + 1, CommittedBy(log, after));
  }

  /** At-least-once delivery: every row change of every transaction that commits after the first
      confirmed position and at or before the last one has been put on the event channel. */
  lemma AtLeastOnce(log: Log, confirmed: seq<Lsn>, sessions: seq<Session>, k: nat, i: nat)
    requires ServedHistory(log, confirmed, sessions)
    requires k < |log| && i < |log[k].changes|
    requires confirmed[0] < log[k].commit <= confirmed[|sessions|]
    ensures ChangeEvent(log[k].changes[i]) in EventsOf(sessions)
  {
    OwedBounds(log, confirmed[0], confirmed[|sessions|], k, i);
    EventDelivered(log, confirmed, sessions, Offset(log, k) + i);
    EventAt(log, k, i);
  }
}
