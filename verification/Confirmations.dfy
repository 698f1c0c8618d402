/** In which order positions are confirmed (crates/calce-cdc/src/listener.rs:162-197). The position held is
    assigned by a data frame, raised by a keep-alive and zero at the start of every session, so confirmations
    can go back; here is exactly when, whatever the timing of statuses, failing writes and the channel. */
module Confirmations {
  import opened Prelude
  import opened Bytes
  import opened Protocol
  import opened WireFormat
  import opened LsnText
  import opened Listener
  import opened Replication

  /** What one read gives. */
  type Frame = Result<ByteString, CdcError>

  predicate Ascending(s: seq<Lsn>) { forall i, j :: 0 <= i < j < |s| ==> s[i] <= s[j] }

  predicate AtMost(s: seq<Lsn>, high: Lsn) { forall i :: 0 <= i < |s| ==> s[i] <= high }

  function FramesOf(arrivals: seq<Arrival>): (r: seq<Frame>)
    ensures |r| == |arrivals|
  {
    if arrivals == [] then [] else [arrivals[0].frame] + FramesOf(arrivals[1..])
  }

  // ---- The condition ----

  function Read(f: Frame): ReplicationMessage
    requires !Breaks(f)
  {
    ReplicationOf(f.value).value
  }

  /** The position held after a frame. */
  function Moved(position: Lsn, f: Frame): Lsn
    requires !Breaks(f)
  {
    if Read(f).XLogData? then Read(f).walEnd else Max(position, Read(f).walEnd)
  }

  /** Whether that position may be confirmed in the same turn. */
  predicate Confirmable(position: Lsn, f: Frame)
    requires !Breaks(f)
  {
    position > 0 || (Read(f).KeepAlive? && Read(f).replyRequested)
  }

  /** Up to the first frame that breaks the session: no position that may be confirmed is below `high` or
      below one that could be confirmed before. */
  predicate Climbs(position: Lsn, high: Lsn, frames: seq<Frame>)
    decreases |frames|
  {
    || frames == [] || Breaks(frames[0])
    || var p := Moved(position, frames[0]);
       if Confirmable(p, frames[0]) then high <= p && Climbs(p, p, frames[1..]) else Climbs(p, high, frames[1..])
  }

  /** The last position that could be confirmed. */
  function Reached(position: Lsn, high: Lsn, frames: seq<Frame>): Lsn
    decreases |frames|
  {
    if frames == [] || Breaks(frames[0]) then high else
    var p := Moved(position, frames[0]);
    Reached(p, if Confirmable(p, frames[0]) then p else high, frames[1..])
  }

  lemma {:induction false} ReachedGrows(position: Lsn, high: Lsn, frames: seq<Frame>)
    requires Climbs(position, high, frames)
    ensures high <= Reached(position, high, frames)
    decreases |frames|
  {
    if frames != [] && !Breaks(frames[0]) {
      var p := Moved(position, frames[0]);
      ReachedGrows(p, if Confirmable(p, frames[0]) then p else high, frames[1..]);
    }
  }

  // ---- Climbing is enough ----

  /** A turn confirms nothing but the position it moves to, once or twice, and that only if it may. */
  lemma TurnConfirms(s: Stream, a: Arrival)
    requires !Breaks(a.frame)
    ensures var s', p := Turn(s, a).stream, Moved(s.lastLsn, a.frame);
            && s'.lastLsn == p
            && (s'.statuses == s.statuses
                || (Confirmable(p, a.frame)
                    && (s'.statuses == s.statuses + [p] || s'.statuses == s.statuses + [p, p])))
  {
    var received := Receive(s, Read(a.frame), a).stream;
    assert s.statuses + [Moved(s.lastLsn, a.frame)] + [Moved(s.lastLsn, a.frame)]
        == s.statuses + [Moved(s.lastLsn, a.frame), Moved(s.lastLsn, a.frame)];
    assert received.lastLsn == Moved(s.lastLsn, a.frame);
  }

  /** When: while writes work and the channel is open, once for a keep-alive that asks for it, and once
      if a status is due and the position is not zero. */
  lemma ConfirmsWhen(s: Stream, a: Arrival)
    requires !Breaks(a.frame) && a.writesOk && a.channelOpen
    ensures var t, m := Turn(s, a), ReplicationOf(a.frame.value).value;
            var p := if m.XLogData? then m.walEnd else Max(s.lastLsn, m.walEnd);
            && t.error == None && t.stream.lastLsn == p
            && t.stream.statuses == s.statuses + (if m.KeepAlive? && m.replyRequested then [p] else [])
                                    + (if a.statusDue && p > 0 then [p] else [])
  {
    TurnConfirms(s, a);
    assert Receive(s, Read(a.frame), a).error.None?;
  }

  /** A status that cannot be written is the last thing that a session does. */
  lemma FailedWriteEnds(s: Stream, a: Arrival)
    requires !Breaks(a.frame) && !a.writesOk
    ensures var t := Turn(s, a);
            t.stream.statuses != s.statuses
            ==> t.error == Some(Io) && |t.stream.statuses| == |s.statuses| + 1
  {
    TurnConfirms(s, a);
  }

  lemma {:induction false} LoopAscends(s: Stream, high: Lsn, arrivals: seq<Arrival>)
    requires Ascending(s.statuses) && AtMost(s.statuses, high) && Climbs(s.lastLsn, high, FramesOf(arrivals))
    ensures var statuses := RunLoop(s, arrivals).stream.statuses;
            Ascending(statuses) && AtMost(statuses, Reached(s.lastLsn, high, FramesOf(arrivals)))
    decreases |arrivals|
  {
    if arrivals != [] {
      assert FramesOf(arrivals)[0] == arrivals[0].frame && FramesOf(arrivals)[1..] == FramesOf(arrivals[1..]);
      if Breaks(arrivals[0].frame) {
        BreakEnds(s, arrivals[0]);
      } else {
        TurnConfirms(s, arrivals[0]);
        var s', p := Turn(s, arrivals[0]).stream, Moved(s.lastLsn, arrivals[0].frame);
        var top := if Confirmable(p, arrivals[0].frame) then p else high;
        if Turn(s, arrivals[0]).error.None? {
          LoopAscends(s', top, arrivals[1..]);
        } else {
          ReachedGrows(p, top, FramesOf(arrivals[1..]));
        }
      }
    }
  }

  // ---- And needed ----

  /** Every status is due, every write works, the channel is open. */
  function AllDue(frames: seq<Frame>): seq<Arrival> {
    if frames == [] then [] else [Arrival(frames[0], true, true, true)] + AllDue(frames[1..])
  }

  lemma {:induction false} AllDueFrames(frames: seq<Frame>)
    ensures FramesOf(AllDue(frames)) == frames
  {
    if frames != [] {
      var rest := AllDue(frames[1..]);
      assert AllDue(frames)[1..] == rest;
      AllDueFrames(frames[1..]);
    }
  }

  /** A due turn confirms the position it moves to whenever it may. */
  lemma DueTurnConfirms(s: Stream, f: Frame)
    requires !Breaks(f)
    ensures var t, p := Turn(s, Arrival(f, true, true, true)), Moved(s.lastLsn, f);
            && t.error.None? && t.stream.lastLsn == p
            && (if Confirmable(p, f) then EndsIn(t.stream.statuses, p) && s.statuses + [p] <= t.stream.statuses
                else t.stream.statuses == s.statuses)
  {
    var a := Arrival(f, true, true, true);
    TurnConfirms(s, a);
    assert Receive(s, Read(f), a).error.None?;
    assert Receive(s, Read(f), a).stream.lastLsn == Moved(s.lastLsn, f);
  }

  predicate EndsIn(statuses: seq<Lsn>, p: Lsn) { statuses != [] && statuses[|statuses| - 1] == p }

  lemma {:induction false} LoopGrows(s: Stream, arrivals: seq<Arrival>)
    ensures s.statuses <= RunLoop(s, arrivals).stream.statuses
    decreases |arrivals|
  {
    if arrivals != [] {
      if Breaks(arrivals[0].frame) {
        BreakEnds(s, arrivals[0]);
      } else {
        TurnConfirms(s, arrivals[0]);
        if Turn(s, arrivals[0]).error.None? {
          LoopGrows(Turn(s, arrivals[0]).stream, arrivals[1..]);
        }
      }
    }
  }

  /** Where frames do not climb, confirming as often as possible goes back; where they do, it ends at the
      position reached. */
  lemma {:induction false} DueLoop(s: Stream, high: Lsn, frames: seq<Frame>)
    requires high == 0 || EndsIn(s.statuses, high)
    ensures var statuses := RunLoop(s, AllDue(frames)).stream.statuses;
            && (!Climbs(s.lastLsn, high, frames) ==> !Ascending(statuses))
            && (Climbs(s.lastLsn, high, frames)
                ==> var r := Reached(s.lastLsn, high, frames); r == 0 || EndsIn(statuses, r))
    decreases |frames|
  {
    if frames != [] {
      var f, rest := frames[0], AllDue(frames[1..]);
      assert AllDue(frames)[0] == Arrival(f, true, true, true) && AllDue(frames)[1..] == rest;
      if Breaks(f) {
        BreakEnds(s, AllDue(frames)[0]);
      } else {
        DueTurnConfirms(s, f);
        var s', p := Turn(s, AllDue(frames)[0]).stream, Moved(s.lastLsn, f);
        if Confirmable(p, f) && p < high {
          LoopGrows(s', rest);
          FallsAt(s.statuses, p, RunLoop(s', rest).stream.statuses);
        } else {
          DueLoop(s', if Confirmable(p, f) then p else high, frames[1..]);
        }
      }
    }
  }

  lemma FallsAt(before: seq<Lsn>, p: Lsn, statuses: seq<Lsn>)
    requires before != [] && p < before[|before| - 1] && before + [p] <= statuses
    ensures !Ascending(statuses)
  {
    assert statuses[|before| - 1] == before[|before| - 1] && statuses[|before|] == p;
  }

  // ---- One session ----

  /** Whatever the timing, a session confirms in ascending order, if and only if its frames climb. */
  lemma SessionAscendsIff(frames: seq<Frame>)
    ensures (forall arrivals :: FramesOf(arrivals) == frames ==> Ascending(RunLoop(FRESH, arrivals).stream.statuses))
            <==> Climbs(0, 0, frames)
  {
    if Climbs(0, 0, frames) {
      forall arrivals | FramesOf(arrivals) == frames
        ensures Ascending(RunLoop(FRESH, arrivals).stream.statuses)
      {
        LoopAscends(FRESH, 0, arrivals);
      }
    } else {
      AllDueFrames(frames);
      DueLoop(FRESH, 0, frames);
    }
  }

  /** No frame read before the session breaks moves the position back. */
  predicate NeverFalls(position: Lsn, frames: seq<Frame>)
    decreases |frames|
  {
    frames == [] || Breaks(frames[0])
    || (position <= Moved(position, frames[0]) && NeverFalls(Moved(position, frames[0]), frames[1..]))
  }

  lemma {:induction false} NeverFallsClimbs(position: Lsn, high: Lsn, frames: seq<Frame>)
    requires high <= position && NeverFalls(position, frames)
    ensures Climbs(position, high, frames)
    decreases |frames|
  {
    if frames != [] && !Breaks(frames[0]) {
      var p := Moved(position, frames[0]);
      NeverFallsClimbs(p, if Confirmable(p, frames[0]) then p else high, frames[1..]);
    }
  }

  /** So a session in which the position never falls confirms in ascending order. */
  lemma SteadySessionAscends(arrivals: seq<Arrival>)
    requires NeverFalls(0, FramesOf(arrivals))
    ensures Ascending(RunLoop(FRESH, arrivals).stream.statuses)
  {
    NeverFallsClimbs(0, 0, FramesOf(arrivals));
    LoopAscends(FRESH, 0, arrivals);
  }

  // ---- Over reconnects ----

  /** The same reads, at other times. */
  ghost predicate Retimed(sessions: seq<Session>, others: seq<Session>) {
    |others| == |sessions| && forall n :: 0 <= n < |sessions| ==> SameReads(sessions[n], others[n])
  }

  predicate SameReads(s: Session, other: Session) {
    other.setup == s.setup && FramesOf(other.arrivals) == FramesOf(s.arrivals)
  }

  function FramesRead(s: Session): seq<Frame> { if s.setup.Ok? then FramesOf(s.arrivals) else [] }

  /** The last position that could be confirmed in all the sessions. */
  function ReachedOver(sessions: seq<Session>): Lsn {
    if sessions == [] then 0 else
    Reached(0, ReachedOver(sessions[..|sessions| - 1]), FramesRead(sessions[|sessions| - 1]))
  }

  /** Every session climbs from zero without going below what an earlier one could confirm. */
  predicate ClimbsOver(sessions: seq<Session>) {
    sessions == []
    || (ClimbsOver(sessions[..|sessions| - 1])
        && Climbs(0, ReachedOver(sessions[..|sessions| - 1]), FramesRead(sessions[|sessions| - 1])))
  }

  /** A session after earlier confirmations is the loop with these carried along. */
  lemma SessionAfter(s: Session, earlier: seq<Lsn>)
    ensures earlier + SessionStatuses(s)
         == RunLoop(FRESH.(statuses := earlier), if s.setup.Ok? then s.arrivals else []).stream.statuses
  {
    if s.setup.Ok? {
      LoopExtends(FRESH, [], earlier, s.arrivals);
      assert Carry(FRESH, [], earlier) == FRESH.(statuses := earlier);
    }
  }

  lemma {:induction false} SessionsAscend(sessions: seq<Session>, others: seq<Session>)
    requires ClimbsOver(sessions) && Retimed(sessions, others)
    ensures Ascending(StatusesOf(others)) && AtMost(StatusesOf(others), ReachedOver(sessions))
  {
    if sessions != [] {
      var n := |sessions| - 1;
      SessionsAscend(sessions[..n], others[..n]);
      assert SameReads(sessions[n], others[n]);
      var earlier := StatusesOf(others[..n]);
      SessionAfter(others[n], earlier);
      LoopAscends(FRESH.(statuses := earlier), ReachedOver(sessions[..n]),
                  if others[n].setup.Ok? then others[n].arrivals else []);
    }
  }

  function DueSession(s: Session): Session { s.(arrivals := AllDue(FramesOf(s.arrivals))) }

  function DueSessions(sessions: seq<Session>): (r: seq<Session>)
    ensures |r| == |sessions|
  {
    if sessions == [] then [] else DueSessions(sessions[..|sessions| - 1]) + [DueSession(sessions[|sessions| - 1])]
  }

  lemma {:induction false} DueIsRetimed(sessions: seq<Session>)
    ensures Retimed(sessions, DueSessions(sessions))
  {
    if sessions != [] {
      DueIsRetimed(sessions[..|sessions| - 1]);
      AllDueFrames(FramesOf(sessions[|sessions| - 1].arrivals));
    }
  }

  lemma {:induction false} DueSessionsLoop(sessions: seq<Session>)
    ensures !ClimbsOver(sessions) ==> !Ascending(StatusesOf(DueSessions(sessions)))
    ensures ClimbsOver(sessions)
            ==> ReachedOver(sessions) == 0 || EndsIn(StatusesOf(DueSessions(sessions)), ReachedOver(sessions))
  {
    if sessions != [] {
      var n := |sessions| - 1;
      var front, last := sessions[..n], sessions[n];
      DueSessionsLoop(front);
      var earlier := StatusesOf(DueSessions(front));
      assert DueSessions(sessions)[..n] == DueSessions(front);
      SessionAfter(DueSession(last), earlier);
      var s := FRESH.(statuses := earlier);
      if ClimbsOver(front) {
        DueLoop(s, ReachedOver(front), FramesRead(last));
      } else {
        StillFalling(earlier, StatusesOf(DueSessions(sessions)));
      }
    }
  }

  lemma StillFalling(before: seq<Lsn>, statuses: seq<Lsn>)
    requires !Ascending(before) && before <= statuses
    ensures !Ascending(statuses)
  {
    var i, j :| 0 <= i < j < |before| && before[i] > before[j];
    assert statuses[i] > statuses[j];
  }

  /** Whatever the timing, the sessions confirm in ascending order, if and only if each one climbs from zero
      without going below what an earlier one could confirm. */
  lemma SessionsAscendIff(sessions: seq<Session>)
    ensures (forall others :: Retimed(sessions, others) ==> Ascending(StatusesOf(others))) <==> ClimbsOver(sessions)
  {
    if ClimbsOver(sessions) {
      forall others | Retimed(sessions, others)
        ensures Ascending(StatusesOf(others))
      {
        SessionsAscend(sessions, others);
      }
    } else {
      DueIsRetimed(sessions);
      DueSessionsLoop(sessions);
    }
  }

  // ---- Servers that make it go back ----

  /** No row change of the log commits at or before `position`. */
  ghost predicate AllAfter(log: Log, position: Lsn) { forall i :: 0 <= i < |log| ==> log[i].commit > position }

  lemma NoneCommittedBy(log: Log, position: Lsn)
    requires ValidLog(log) && AllAfter(log, position)
    ensures CommittedBy(log, position) == 0
  {
    assert log != [] ==> log[0].commit > position;
  }

  function DueData(walEnd: Word64, payload: ByteString): Arrival { Due(XLog(Header(0, walEnd, 0), payload)) }

  lemma DataTurn(s: Stream, walEnd: Word64, payload: ByteString)
    requires 0 < walEnd && MessageOf(payload) == Ok(None)
    ensures Turn(s, DueData(walEnd, payload)) == Turned(s.(lastLsn := walEnd, statuses := s.statuses + [walEnd]), None)
  {
    FrameRoundTrip(WireXLogData(0, walEnd, 0, payload));
  }

  lemma DataIsServed(log: Log, walEnd: Word64, payload: ByteString, more: seq<Arrival>)
    requires ValidLog(log) && AllAfter(log, walEnd) && MessageOf(payload) == Ok(None)
    requires Served(log, ServerState(0, 0, map[]), more)
    ensures Served(log, ServerState(0, 0, map[]), [DueData(walEnd, payload)] + more)
  {
    NoneCommittedBy(log, walEnd);
    var st, a := ServerState(0, 0, map[]), SendOther(Header(0, walEnd, 0), payload);
    assert ServedBy(log, st, a, DueData(walEnd, payload)) && Next(st, a) == st;
    assert ([DueData(walEnd, payload)] + more)[1..] == more;
  }

  lemma TwoDueTurns(high: Word64, low: Word64, payload: ByteString)
    requires 0 < low && 0 < high && MessageOf(payload) == Ok(None)
    ensures RunLoop(FRESH, [DueData(high, payload), DueData(low, payload)]).stream.statuses == [high, low]
  {
    var s := FRESH.(lastLsn := high, statuses := [high]);
    DataTurn(FRESH, high, payload);
    DataTurn(s, low, payload);
    assert Turn(FRESH, DueData(high, payload)).stream == s;
    LoopTwo(FRESH, DueData(high, payload), DueData(low, payload));
  }

  lemma BothServed(log: Log, high: Word64, low: Word64, payload: ByteString)
    requires ValidLog(log) && AllAfter(log, high) && low < high && MessageOf(payload) == Ok(None)
    ensures Served(log, ServerState(0, 0, map[]), [DueData(high, payload), DueData(low, payload)])
  {
    DataIsServed(log, low, payload, []);
    assert [DueData(low, payload)] + [] == [DueData(low, payload)];
    DataIsServed(log, high, payload, [DueData(low, payload)]);
    assert [DueData(high, payload)] + [DueData(low, payload)] == [DueData(high, payload), DueData(low, payload)];
  }

  /** Within a session: a server that keeps its obligations may send two data frames with falling positions,
      and both are confirmed when both turns are due. */
  lemma FallingFramesAreServed(log: Log, high: Word64, low: Word64, payload: ByteString)
    requires ValidLog(log) && AllAfter(log, high) && 0 < low < high && MessageOf(payload) == Ok(None)
    ensures exists arrivals :: Served(log, ServerState(0, 0, map[]), arrivals)
                            && RunLoop(FRESH, arrivals).stream.statuses == [high, low]
  {
    BothServed(log, high, low, payload);
    TwoDueTurns(high, low, payload);
  }

  /** A session that reads one keep-alive asking for a reply. */
  function OneKeepAlive(walEnd: Word64): Session {
    Session(false, Ok(FormatLsn(0)), [Arrival(Ok(EncodeFrame(WireKeepAlive(walEnd, 0, 1))), false, true, true)])
  }

  lemma OneKeepAliveConfirms(walEnd: Word64)
    ensures SessionStatuses(OneKeepAlive(walEnd)) == [walEnd]
    ensures NeverFalls(0, FramesRead(OneKeepAlive(walEnd)))
  {
    FrameRoundTrip(WireKeepAlive(walEnd, 0, 1));
    var a := OneKeepAlive(walEnd).arrivals[0];
    assert [a][1..] == [];
    assert Turn(FRESH, a) == Turned(FRESH.(lastLsn := walEnd, statuses := [walEnd]), None);
    assert RunLoop(FRESH, [a]) == RunLoop(Turn(FRESH, a).stream, []);
  }

  lemma OneKeepAliveIsServed(log: Log, confirmed: Lsn, walEnd: Word64)
    requires ValidLog(log) && AllAfter(log, confirmed) && AllAfter(log, walEnd)
    ensures ServedSession(log, confirmed, OneKeepAlive(walEnd))
  {
    LsnRoundTrip(0);
    NoneCommittedBy(log, confirmed);
    NoneCommittedBy(log, walEnd);
    var st, arrivals := ServerState(0, 0, map[]), OneKeepAlive(walEnd).arrivals;
    assert ServedBy(log, st, SendKeepAlive(walEnd, 0, 1), arrivals[0]);
    assert arrivals[1..] == [] && Served(log, st, []);
  }

  lemma StatusesOfTwo(s: Session, t: Session)
    ensures StatusesOf([s, t]) == SessionStatuses(s) + SessionStatuses(t)
  {
    assert [s, t][..1] == [s] && [s][..0] == [];
    assert StatusesOf([s]) == StatusesOf([]) + SessionStatuses(s);
  }

  /** Over a reconnect: two sessions of a served history, in each of which the position never falls, confirm
      a position and then a smaller one, and the server's confirmed position goes back. */
  lemma ReconnectGoesBack(log: Log, high: Word64, low: Word64)
    requires ValidLog(log) && AllAfter(log, high) && low < high
    ensures ServedHistory(log, [0, high, low], [OneKeepAlive(high), OneKeepAlive(low)])
    ensures StatusesOf([OneKeepAlive(high), OneKeepAlive(low)]) == [high, low]
    ensures NeverFalls(0, FramesRead(OneKeepAlive(high))) && NeverFalls(0, FramesRead(OneKeepAlive(low)))
  {
    OneKeepAliveConfirms(high);
    OneKeepAliveConfirms(low);
    OneKeepAliveIsServed(log, 0, high);
    OneKeepAliveIsServed(log, high, low);
    StatusesOfTwo(OneKeepAlive(high), OneKeepAlive(low));
    assert ServedStep(log, 0, OneKeepAlive(high), high) && ServedStep(log, high, OneKeepAlive(low), low);
    TwoSessions(log, high, low, OneKeepAlive(high), OneKeepAlive(low));
  }

  lemma TwoSessions(log: Log, p: Lsn, q: Lsn, s: Session, t: Session)
    requires ValidLog(log) && ServedStep(log, 0, s, p) && ServedStep(log, p, t, q)
    ensures ServedHistory(log, [0, p, q], [s, t])
  {
  }
}
