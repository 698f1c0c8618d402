/** Refresh-token families (crates/calce-api/src/routes/auth.rs:75-100 and 181-266,
    crates/calce-data/src/queries/auth.rs:154-247 and 340-355). A request is one atomic step at one
    instant; a token stands for its hash, and fresh tokens and families are never repeated. */
module TokenFamilies {
  import opened Prelude

  type Token = nat

  type Family = nat

  type User(==, !new)

  /** Microseconds. */
  type Time = int

  const GRACE_PERIOD_SECS := 30

  const LIFETIME := 30 * 24 * 3600 * 1_000_000

  /** Whole seconds of a duration, towards zero. */
  function NumSeconds(duration: int): int {
    if duration >= 0 then duration / 1_000_000 else -((-duration) / 1_000_000)
  }

  datatype Row = Row(family: Family, user: User, createdAt: Time, expiresAt: Time,
                     supersededAt: Option<Time>, revokedAt: Option<Time>)

  /** The table, the sources of fresh tokens and families, and how often each family was rotated. */
  datatype State = State(rows: map<Token, Row>, nextToken: Token, nextFamily: Family, rotations: map<Family, nat>)

  datatype Reply = Tokens(user: User, refresh: Token) | Invalid | ReplayDetected | LoggedOut

  const EMPTY := State(map[], 0, 0, map[])

  // ---- The statements ----

  function Created(rows: map<Token, Row>, token: Token, family: Family, user: User, now: Time): map<Token, Row> {
    rows[token := Row(family, user, now, now + LIFETIME, None, None)]
  }

  function Superseded(rows: map<Token, Row>, token: Token, now: Time): map<Token, Row>
    requires token in rows
  {
    rows[token := rows[token].(supersededAt := Some(now))]
  }

  function Revoked(rows: map<Token, Row>, family: Family, now: Time): map<Token, Row> {
    map t | t in rows :: if rows[t].family == family && rows[t].revokedAt.None? then rows[t].(revokedAt := Some(now))
                         else rows[t]
  }

  predicate Current(r: Row, family: Family, now: Time) {
    r.family == family && r.supersededAt.None? && r.revokedAt.None? && r.expiresAt > now
  }

  predicate HasCurrent(rows: map<Token, Row>, family: Family, now: Time) {
    exists t :: t in rows && Current(rows[t], family, now)
  }

  // ---- The requests ----

  /** A login that passed the password check. */
  function AfterLogin(s: State, user: User, now: Time): State {
    State(Created(s.rows, s.nextToken, s.nextFamily, user, now), s.nextToken + 1, s.nextFamily + 1,
          s.rotations[s.nextFamily := 0])
  }

  predicate Usable(r: Row, now: Time) { r.revokedAt.None? && r.expiresAt >= now }

  predicate InGrace(r: Row, now: Time) {
    r.supersededAt.Some? && NumSeconds(now - r.supersededAt.value) < GRACE_PERIOD_SECS
  }

  function Rotated(s: State, token: Token, now: Time): State
    requires token in s.rows
  {
    var r := s.rows[token];
    State(Created(Superseded(s.rows, token, now), s.nextToken, r.family, r.user, now), s.nextToken + 1, s.nextFamily,
          s.rotations[r.family := 1 + if r.family in s.rotations then s.rotations[r.family] else 0])
  }

  function AfterRefresh(s: State, token: Token, now: Time): State {
    if token !in s.rows || !Usable(s.rows[token], now) || InGrace(s.rows[token], now) then s
    else if s.rows[token].supersededAt.Some? then s.(rows := Revoked(s.rows, s.rows[token].family, now))
    else Rotated(s, token, now)
  }

  /** In the grace period the reply carries the very token of the request. */
  function RefreshReply(s: State, token: Token, now: Time): Reply {
    if token !in s.rows || !Usable(s.rows[token], now) then Invalid
    else
      var r := s.rows[token];
      if InGrace(r, now) then if HasCurrent(s.rows, r.family, now) then Tokens(r.user, token) else Invalid
      else if r.supersededAt.Some? then ReplayDetected
      else Tokens(r.user, s.nextToken)
  }

  function AfterLogout(s: State, token: Token, now: Time): State {
    if token in s.rows then s.(rows := Revoked(s.rows, s.rows[token].family, now)) else s
  }

  datatype Request = Login(user: User) | Refresh(token: Token) | Logout(token: Token)

  datatype Timed = Timed(request: Request, now: Time)

  function Step(s: State, q: Timed): State {
    match q.request
    case Login(user) => AfterLogin(s, user, q.now)
    case Refresh(token) => AfterRefresh(s, token, q.now)
    case Logout(token) => AfterLogout(s, token, q.now)
  }

  function ReplyTo(s: State, q: Timed): Reply {
    match q.request
    case Login(user) => Tokens(user, s.nextToken)
    case Refresh(token) => RefreshReply(s, token, q.now)
    case Logout(_) => LoggedOut
  }

  function After(qs: seq<Timed>): State {
    if qs == [] then EMPTY else Step(After(qs[..|qs| - 1]), qs[|qs| - 1])
  }

  /** The clock starts at zero and does not go back. */
  predicate InTime(qs: seq<Timed>) {
    (forall i :: 0 <= i < |qs| ==> 0 <= qs[i].now) && forall i, j :: 0 <= i < j < |qs| ==> qs[i].now <= qs[j].now
  }

  // ---- The handlers ----

  class AuthService {
    var rows: map<Token, Row>
    var nextToken: Token
    var nextFamily: Family
    ghost var rotations: map<Family, nat>

    ghost function Now(): State
      reads this
    {
      State(rows, nextToken, nextFamily, rotations)
    }

    constructor ()
      ensures Now() == EMPTY
    {
      rows, nextToken, nextFamily, rotations := map[], 0, 0, map[];
    }

    method CreateRefreshToken(token: Token, family: Family, user: User, now: Time)
      modifies `rows
      ensures rows == Created(old(rows), token, family, user, now)
    {
      rows := rows[token := Row(family, user, now, now + LIFETIME, None, None)];
    }

    method SupersedeRefreshToken(token: Token, now: Time)
      requires token in rows
      modifies `rows
      ensures rows == Superseded(old(rows), token, now)
    {
      rows := rows[token := rows[token].(supersededAt := Some(now))];
    }

    /** One row after another: the database's own order. */
    method RevokeTokenFamily(family: Family, now: Time)
      modifies `rows
      ensures rows == Revoked(old(rows), family, now)
    {
      var rest := rows.Keys;
      while rest != {}
        invariant rest <= old(rows).Keys == rows.Keys
        invariant forall t :: t in rows
                          ==> rows[t] == if t in rest then old(rows)[t] else Revoked(old(rows), family, now)[t]
      {
        var t :| t in rest;
        if rows[t].family == family && rows[t].revokedAt.None? {
          rows := rows[t := rows[t].(revokedAt := Some(now))];
        }
        rest := rest - {t};
      }
    }

    method FindActiveFamilyToken(family: Family, now: Time) returns (found: Option<Token>)
      ensures found.Some? <==> HasCurrent(rows, family, now)
      ensures found.Some? ==> found.value in rows && Current(rows[found.value], family, now)
                              && forall t :: t in rows && Current(rows[t], family, now)
                                         ==> rows[t].createdAt <= rows[found.value].createdAt
    {
      found := None;
      var rest := rows.Keys;
      while rest != {}
        invariant rest <= rows.Keys
        invariant found.None? ==> forall t :: t in rows && t !in rest ==> !Current(rows[t], family, now)
        invariant found.Some? ==> found.value in rows && Current(rows[found.value], family, now)
                                  && forall t :: t in rows && t !in rest && Current(rows[t], family, now)
                                             ==> rows[t].createdAt <= rows[found.value].createdAt
      {
        var t :| t in rest;
        if Current(rows[t], family, now) && (found.None? || rows[found.value].createdAt < rows[t].createdAt) {
          found := Some(t);
        }
        rest := rest - {t};
      }
    }

    method IssueTokens(user: User, family: Family, now: Time) returns (r: Reply)
      modifies `rows, `nextToken
      ensures rows == Created(old(rows), old(nextToken), family, user, now)
      ensures nextToken == old(nextToken) + 1 && r == Tokens(user, old(nextToken))
    {
      var token := nextToken;
      nextToken := nextToken + 1;
      CreateRefreshToken(token, family, user, now);
      r := Tokens(user, token);
    }

    method Login(user: User, now: Time) returns (r: Reply)
      modifies this
      ensures Now() == AfterLogin(old(Now()), user, now) && r == Tokens(user, old(nextToken))
    {
      var family := nextFamily;
      nextFamily := nextFamily + 1;
      rotations := rotations[family := 0];
      r := IssueTokens(user, family, now);
    }

    method Refresh(token: Token, now: Time) returns (r: Reply)
      modifies this
      ensures Now() == AfterRefresh(old(Now()), token, now)
      ensures r == RefreshReply(old(Now()), token, now)
    {
      if token !in rows {
        return Invalid;
      }
      var row := rows[token];
      if row.revokedAt.Some? || row.expiresAt < now {
        return Invalid;
      }
      if row.supersededAt.Some? {
        var elapsed := now - row.supersededAt.value;
        if NumSeconds(elapsed) < GRACE_PERIOD_SECS {
          var active := FindActiveFamilyToken(row.family, now);
          if active.None? {
            return Invalid;
          }
          return Tokens(row.user, token);
        }
        RevokeTokenFamily(row.family, now);
        return ReplayDetected;
      }
      SupersedeRefreshToken(token, now);
      rotations := rotations[row.family := 1 + if row.family in rotations then rotations[row.family] else 0];
      r := IssueTokens(row.user, row.family, now);
    }

    method Logout(token: Token, now: Time) returns (r: Reply)
      modifies this
      ensures Now() == AfterLogout(old(Now()), token, now) && r == LoggedOut
    {
      if token in rows {
        RevokeTokenFamily(rows[token].family, now);
      }
      r := LoggedOut;
    }
  }

  // ---- What every request keeps ----

  function Members(rows: map<Token, Row>, f: Family): set<Token> { set t | t in rows && rows[t].family == f }

  predicate IsHead(rows: map<Token, Row>, f: Family, t: Token) {
    t in rows && rows[t].family == f && rows[t].supersededAt.None?
  }

  /** The family's one token that is not superseded is its newest. */
  predicate HeadIs(rows: map<Token, Row>, f: Family, head: Token) {
    && IsHead(rows, f, head)
    && forall t :: t in rows && rows[t].family == f ==> t <= head && (IsHead(rows, f, t) ==> t == head)
  }

  ghost predicate HasHead(rows: map<Token, Row>, f: Family) { exists head :: HeadIs(rows, f, head) }

  predicate RowOk(r: Row, now: Time) {
    && r.createdAt <= now && r.expiresAt == r.createdAt + LIFETIME
    && (r.supersededAt.Some? ==> r.supersededAt.value <= now)
  }

  /** Two tokens of one family were revoked at the same instant or not at all, and are the same user's. */
  predicate Together(a: Row, b: Row) { a.family == b.family ==> a.revokedAt == b.revokedAt && a.user == b.user }

  ghost predicate FamilyOk(s: State, f: Family) {
    && HasHead(s.rows, f) && f in s.rotations && |Members(s.rows, f)| == 1 + s.rotations[f]
  }

  ghost predicate Inv(s: State, now: Time) {
    && (forall t :: t in s.rows ==> t < s.nextToken && s.rows[t].family < s.nextFamily && RowOk(s.rows[t], now))
    && (forall t, u :: t in s.rows && u in s.rows ==> Together(s.rows[t], s.rows[u]))
    && (forall f: Family :: f < s.nextFamily ==> FamilyOk(s, f))
    && (forall f: Family :: f in s.rotations ==> f < s.nextFamily)
  }

  lemma CreateKeepsOthers(rows: map<Token, Row>, t: Token, g: Family, user: User, now: Time, f: Family)
    requires f != g && t !in rows && HasHead(rows, f)
    ensures HasHead(Created(rows, t, g, user, now), f) && Members(Created(rows, t, g, user, now), f) == Members(rows, f)
  {
    var head :| HeadIs(rows, f, head);
    assert HeadIs(Created(rows, t, g, user, now), f, head);
  }

  lemma LoginKeepsInv(s: State, user: User, before: Time, now: Time)
    requires Inv(s, before) && before <= now
    ensures Inv(AfterLogin(s, user, now), now)
  {
    var s' := AfterLogin(s, user, now);
    forall f: Family | f < s'.nextFamily
      ensures FamilyOk(s', f)
    {
      if f == s.nextFamily {
        assert HeadIs(s'.rows, f, s.nextToken);
        assert Members(s'.rows, f) == {s.nextToken};
      } else {
        assert FamilyOk(s, f);
        CreateKeepsOthers(s.rows, s.nextToken, s.nextFamily, user, now, f);
      }
    }
  }

  /** Superseding and revoking keep who belongs to which family. */
  lemma RotationKeepsFamilies(s: State, token: Token, before: Time, now: Time, f: Family)
    requires Inv(s, before) && before <= now && token in s.rows && f < s.nextFamily
    requires Usable(s.rows[token], now) && s.rows[token].supersededAt.None?
    ensures FamilyOk(Rotated(s, token, now), f)
  {
    var s', r := Rotated(s, token, now), s.rows[token];
    assert FamilyOk(s, f);
    var head :| HeadIs(s.rows, f, head);
    if f == r.family {
      assert IsHead(s.rows, f, token) && token == head;
      assert HeadIs(s'.rows, f, s.nextToken);
      assert Members(s'.rows, f) == Members(s.rows, f) + {s.nextToken};
    } else {
      assert HeadIs(s'.rows, f, head);
      assert Members(s'.rows, f) == Members(s.rows, f);
    }
  }

  lemma RotationKeepsInv(s: State, token: Token, before: Time, now: Time)
    requires Inv(s, before) && before <= now && token in s.rows
    requires Usable(s.rows[token], now) && s.rows[token].supersededAt.None?
    ensures Inv(Rotated(s, token, now), now)
  {
    var s' := Rotated(s, token, now);
    forall f: Family | f < s'.nextFamily
      ensures FamilyOk(s', f)
    {
      RotationKeepsFamilies(s, token, before, now, f);
    }
    forall t, u | t in s'.rows && u in s'.rows
      ensures Together(s'.rows[t], s'.rows[u])
    {
      RotatedRow(s, token, now, t);
      RotatedRow(s, token, now, u);
      var a, b := if t == s.nextToken then token else t, if u == s.nextToken then token else u;
      assert Together(s.rows[a], s.rows[b]);
    }
  }

  /** A row after a rotation is like one before it. */
  lemma RotatedRow(s: State, token: Token, now: Time, t: Token)
    requires token in s.rows && s.rows[token].revokedAt.None? && t in Rotated(s, token, now).rows
    ensures var was := if t == s.nextToken then token else t;
            was in s.rows && Rotated(s, token, now).rows[t].family == s.rows[was].family
            && Rotated(s, token, now).rows[t].user == s.rows[was].user
            && Rotated(s, token, now).rows[t].revokedAt == s.rows[was].revokedAt
  {
  }

  lemma RevocationKeepsInv(s: State, f: Family, before: Time, now: Time)
    requires Inv(s, before) && before <= now
    ensures Inv(s.(rows := Revoked(s.rows, f, now)), now)
  {
    var s' := s.(rows := Revoked(s.rows, f, now));
    forall g: Family | g < s'.nextFamily
      ensures FamilyOk(s', g)
    {
      assert FamilyOk(s, g);
      var head :| HeadIs(s.rows, g, head);
      assert HeadIs(s'.rows, g, head);
      assert Members(s'.rows, g) == Members(s.rows, g);
    }
    forall t, u | t in s'.rows && u in s'.rows
      ensures Together(s'.rows[t], s'.rows[u])
    {
      assert Together(s.rows[t], s.rows[u]);
    }
  }

  lemma StepKeepsInv(s: State, q: Timed, before: Time)
    requires Inv(s, before) && before <= q.now
    ensures Inv(Step(s, q), q.now)
  {
    match q.request
    case Login(user) => LoginKeepsInv(s, user, before, q.now);
    case Refresh(token) =>
      if token in s.rows && Usable(s.rows[token], q.now) && !InGrace(s.rows[token], q.now) {
        if s.rows[token].supersededAt.Some? {
          RevocationKeepsInv(s, s.rows[token].family, before, q.now);
        } else {
          RotationKeepsInv(s, token, before, q.now);
        }
      }
    case Logout(token) =>
      if token in s.rows {
        RevocationKeepsInv(s, s.rows[token].family, before, q.now);
      }
  }

  // ---- All runs ----

  function Latest(qs: seq<Timed>): Time { if qs == [] then 0 else qs[|qs| - 1].now }

  lemma {:induction false} RunKeepsInv(qs: seq<Timed>)
    requires InTime(qs)
    ensures Inv(After(qs), Latest(qs))
  {
    if qs != [] {
      var front := qs[..|qs| - 1];
      RunKeepsInv(front);
      StepKeepsInv(After(front), qs[|qs| - 1], Latest(front));
    }
  }

  /** The reply carries a new token of family `f`. */
  predicate Rotates(s: State, q: Timed, f: Family) {
    && q.request.Refresh? && q.request.token in s.rows && s.rows[q.request.token].family == f
    && ReplyTo(s, q).Tokens? && ReplyTo(s, q).refresh !in s.rows
  }

  /** How many refreshes of the run were answered with a new token of the family. */
  function Rotations(qs: seq<Timed>, f: Family): nat {
    if qs == [] then 0 else
    Rotations(qs[..|qs| - 1], f) + if Rotates(After(qs[..|qs| - 1]), qs[|qs| - 1], f) then 1 else 0
  }

  lemma {:induction false} RotationsCounted(qs: seq<Timed>, f: Family)
    requires InTime(qs)
    ensures Rotations(qs, f) == if f in After(qs).rotations then After(qs).rotations[f] else 0
  {
    if qs != [] {
      var front, q := qs[..|qs| - 1], qs[|qs| - 1];
      RotationsCounted(front, f);
      RunKeepsInv(front);
      var s := After(front);
      assert s.nextToken !in s.rows;
      if q.request.Login? && f == s.nextFamily {
        NoFamilyYet(s, Latest(front), f);
      }
    }
  }

  lemma NoFamilyYet(s: State, now: Time, f: Family)
    requires Inv(s, now) && f >= s.nextFamily
    ensures f !in s.rotations
  {
  }

  /** In every run: a family is revoked as a whole or not at all and is one user's; exactly one of its
      tokens is not superseded, the newest; and it has one token more than it had rotations. */
  lemma FamiliesAreSound(qs: seq<Timed>, t: Token)
    requires InTime(qs) && t in After(qs).rows
    ensures var s := After(qs);
            var f := s.rows[t].family;
            && (forall u :: u in Members(s.rows, f)
                        ==> s.rows[u].revokedAt == s.rows[t].revokedAt && s.rows[u].user == s.rows[t].user)
            && HasHead(s.rows, f) && |Members(s.rows, f)| == 1 + Rotations(qs, f)
  {
    RunKeepsInv(qs);
    RotationsCounted(qs, After(qs).rows[t].family);
    var s := After(qs);
    assert FamilyOk(s, s.rows[t].family);
    forall u | u in Members(s.rows, s.rows[t].family)
      ensures s.rows[u].revokedAt == s.rows[t].revokedAt && s.rows[u].user == s.rows[t].user
    {
      assert Together(s.rows[u], s.rows[t]);
    }
  }

  // ---- Revocation is for ever ----

  predicate AllRevoked(rows: map<Token, Row>, f: Family) {
    forall t :: t in rows && rows[t].family == f ==> rows[t].revokedAt.Some?
  }

  lemma StepStaysRevoked(s: State, q: Timed, f: Family)
    requires AllRevoked(s.rows, f) && f < s.nextFamily
    ensures AllRevoked(Step(s, q).rows, f) && f < Step(s, q).nextFamily
  {
  }

  lemma {:induction false} StaysRevoked(qs: seq<Timed>, more: seq<Timed>, f: Family)
    requires AllRevoked(After(qs).rows, f) && f < After(qs).nextFamily
    ensures AllRevoked(After(qs + more).rows, f) && f < After(qs + more).nextFamily
  {
    if more == [] {
      assert qs + more == qs;
    } else {
      StaysRevoked(qs, more[..|more| - 1], f);
      assert (qs + more)[..|qs + more| - 1] == qs + more[..|more| - 1];
      StepStaysRevoked(After(qs + more[..|more| - 1]), more[|more| - 1], f);
    }
  }

  /** The request revokes the family of `t`: a logout with one of its tokens, or the replay of a
      superseded one that is not expired after the grace period. */
  predicate Revokes(s: State, q: Timed, f: Family) {
    match q.request
    case Login(_) => false
    case Logout(token) => token in s.rows && s.rows[token].family == f
    case Refresh(token) =>
      && token in s.rows && s.rows[token].family == f && s.rows[token].expiresAt >= q.now
      && s.rows[token].supersededAt.Some? && !InGrace(s.rows[token], q.now)
  }

  /** After a logout or a late replay, whatever requests come between, no refresh with any token of the
      family succeeds again. */
  lemma NoRefreshAfterRevocation(qs: seq<Timed>, q: Timed, more: seq<Timed>, token: Token, now: Time)
    requires InTime(qs)
    requires token in After(qs + [q] + more).rows
    requires Revokes(After(qs), q, After(qs + [q] + more).rows[token].family)
    ensures RefreshReply(After(qs + [q] + more), token, now) == Invalid
  {
    var f := After(qs + [q] + more).rows[token].family;
    var s := After(qs);
    assert (qs + [q])[..|qs|] == qs && After(qs + [q]) == Step(s, q);
    RunKeepsInv(qs);
    var member := q.request.token;
    forall t | t in s.rows && s.rows[t].family == f
      ensures Together(s.rows[t], s.rows[member])
    {
    }
    StaysRevoked(qs + [q], more, f);
  }

  // ---- When a refresh succeeds, and with what ----

  /** Some token of the family is not superseded, not revoked and expires later than now. */
  predicate HasLiveToken(rows: map<Token, Row>, f: Family, now: Time) {
    exists t :: t in rows && rows[t].family == f && rows[t].supersededAt == None && rows[t].revokedAt == None
                && rows[t].expiresAt > now
  }

  lemma CurrentIsLive(rows: map<Token, Row>, f: Family, now: Time)
    ensures HasCurrent(rows, f, now) <==> HasLiveToken(rows, f, now)
  {
    if HasLiveToken(rows, f, now) {
      var t :| t in rows && rows[t].family == f && rows[t].supersededAt == None && rows[t].revokedAt == None
               && rows[t].expiresAt > now;
      assert Current(rows[t], f, now);
    }
  }

  /** Superseded less than thirty seconds ago. */
  predicate JustSuperseded(r: Row, now: Time) { r.supersededAt.Some? && now < r.supersededAt.value + 30_000_000 }

  lemma GraceIsThirtySeconds(r: Row, now: Time)
    requires r.supersededAt.Some? ==> r.supersededAt.value <= now
    ensures InGrace(r, now) <==> JustSuperseded(r, now)
  {
  }

  /** A refresh succeeds exactly for a known, unrevoked, unexpired token that is the family's newest, or
      was superseded less than thirty seconds ago while the family still has a live token. */
  lemma RefreshSucceedsIff(qs: seq<Timed>, token: Token, now: Time)
    requires InTime(qs) && Latest(qs) <= now
    ensures var s := After(qs);
            RefreshReply(s, token, now).Tokens?
            <==> token in s.rows && s.rows[token].revokedAt == None && s.rows[token].expiresAt >= now
                 && (HeadIs(s.rows, s.rows[token].family, token)
                     || (JustSuperseded(s.rows[token], now) && HasLiveToken(s.rows, s.rows[token].family, now)))
  {
    RunKeepsInv(qs);
    var s := After(qs);
    if token in s.rows {
      assert FamilyOk(s, s.rows[token].family);
      var head :| HeadIs(s.rows, s.rows[token].family, head);
      assert IsHead(s.rows, s.rows[token].family, token) ==> token == head;
      CurrentIsLive(s.rows, s.rows[token].family, now);
      GraceIsThirtySeconds(s.rows[token], now);
    }
  }

  /** An expired, a revoked and an unknown token are rejected, and nothing changes. */
  lemma RejectedChangesNothing(s: State, token: Token, now: Time)
    requires token !in s.rows || s.rows[token].revokedAt.Some? || s.rows[token].expiresAt < now
    ensures RefreshReply(s, token, now) == Invalid && AfterRefresh(s, token, now) == s
  {
  }

  // ---- What a request does to the table ----

  /** A new row: of this family and user, created now, good for thirty days, not superseded, not revoked. */
  predicate IsNewRow(r: Row, family: Family, user: User, now: Time) {
    && r.family == family && r.user == user && r.createdAt == now
    && r.expiresAt == now + 2_592_000_000_000 && r.supersededAt == None && r.revokedAt == None
  }

  lemma LoginAdds(s: State, user: User, now: Time)
    ensures var s', reply := Step(s, Timed(Login(user), now)), ReplyTo(s, Timed(Login(user), now));
            && reply == Tokens(user, s.nextToken) && s'.rows.Keys == s.rows.Keys + {s.nextToken}
            && IsNewRow(s'.rows[s.nextToken], s.nextFamily, user, now)
            && forall t :: t in s.rows && t != s.nextToken ==> s'.rows[t] == s.rows[t]
  {
  }

  /** A rotation: the token is superseded now, and a new one of its family and user is the reply. */
  lemma RotationDoes(s: State, token: Token, now: Time)
    requires token in s.rows && token != s.nextToken && s.rows[token].revokedAt == None
    requires s.rows[token].expiresAt >= now && s.rows[token].supersededAt == None
    ensures var s', r := AfterRefresh(s, token, now), s.rows[token];
            && RefreshReply(s, token, now) == Tokens(r.user, s.nextToken)
            && s'.rows.Keys == s.rows.Keys + {s.nextToken}
            && IsNewRow(s'.rows[s.nextToken], r.family, r.user, now)
            && s'.rows[token] == r.(supersededAt := Some(now))
            && forall t :: t in s.rows && t != token && t != s.nextToken ==> s'.rows[t] == s.rows[t]
  {
  }

  /** Within thirty seconds of its superseding a token is answered with itself, or rejected if its family
      has no live token; either way nothing changes. */
  lemma GraceDoes(s: State, token: Token, now: Time)
    requires token in s.rows && s.rows[token].revokedAt == None && s.rows[token].expiresAt >= now
    requires JustSuperseded(s.rows[token], now) && s.rows[token].supersededAt.value <= now
    ensures AfterRefresh(s, token, now) == s
    ensures RefreshReply(s, token, now)
         == if HasLiveToken(s.rows, s.rows[token].family, now) then Tokens(s.rows[token].user, token) else Invalid
  {
    GraceIsThirtySeconds(s.rows[token], now);
    CurrentIsLive(s.rows, s.rows[token].family, now);
  }

  /** What a late replay and a logout do: the family's unrevoked rows are revoked now, and no row changes
      otherwise. */
  ghost predicate FamilyRevoked(before: map<Token, Row>, after: map<Token, Row>, f: Family, now: Time) {
    && after.Keys == before.Keys
    && forall t :: t in before ==>
         after[t] == if before[t].family == f && before[t].revokedAt == None then before[t].(revokedAt := Some(now))
                     else before[t]
  }

  lemma ReplayDoes(s: State, token: Token, now: Time)
    requires token in s.rows && s.rows[token].revokedAt == None && s.rows[token].expiresAt >= now
    requires s.rows[token].supersededAt.Some? && s.rows[token].supersededAt.value + 30_000_000 <= now
    ensures RefreshReply(s, token, now) == ReplayDetected
    ensures FamilyRevoked(s.rows, AfterRefresh(s, token, now).rows, s.rows[token].family, now)
  {
    GraceIsThirtySeconds(s.rows[token], now);
  }

  lemma LogoutDoes(s: State, token: Token, now: Time)
    ensures if token in s.rows then FamilyRevoked(s.rows, AfterLogout(s, token, now).rows, s.rows[token].family, now)
            else AfterLogout(s, token, now) == s
  {
  }

  // ---- Thirty days ----

  /** The request was answered with a token that is new. */
  predicate Issues(s: State, q: Timed, token: Token) {
    ReplyTo(s, q).Tokens? && ReplyTo(s, q).refresh == token && token !in s.rows
  }

  lemma IssuedExpires(s: State, q: Timed, token: Token)
    requires Issues(s, q, token)
    ensures token in Step(s, q).rows && Step(s, q).rows[token].expiresAt == q.now + 2_592_000_000_000
  {
  }

  lemma {:induction false} ExpiryStays(qs: seq<Timed>, more: seq<Timed>, token: Token)
    requires InTime(qs + more) && token in After(qs).rows
    ensures token in After(qs + more).rows && After(qs + more).rows[token].expiresAt == After(qs).rows[token].expiresAt
    decreases |more|
  {
    if more == [] {
      assert qs + more == qs;
    } else {
      var front, q := more[..|more| - 1], more[|more| - 1];
      assert (qs + more)[..|qs + more| - 1] == qs + front;
      ExpiryStays(qs, front, token);
      RunKeepsInv(qs + front);
      ExpiryStep(After(qs + front), q, token);
    }
  }

  lemma ExpiryStep(s: State, q: Timed, token: Token)
    requires token in s.rows && token != s.nextToken
    ensures token in Step(s, q).rows && Step(s, q).rows[token].expiresAt == s.rows[token].expiresAt
  {
  }

  /** Whatever requests come between, no refresh with a token succeeds more than thirty days after the
      request that issued it. */
  lemma NoRefreshAfterThirtyDays(qs: seq<Timed>, q: Timed, more: seq<Timed>, token: Token, now: Time)
    requires InTime(qs + [q] + more) && Issues(After(qs), q, token) && q.now + 2_592_000_000_000 < now
    ensures RefreshReply(After(qs + [q] + more), token, now) == Invalid
    ensures AfterRefresh(After(qs + [q] + more), token, now) == After(qs + [q] + more)
  {
    assert (qs + [q])[..|qs|] == qs && After(qs + [q]) == Step(After(qs), q);
    IssuedExpires(After(qs), q, token);
    ExpiryStays(qs + [q], more, token);
    RejectedChangesNothing(After(qs + [q] + more), token, now);
  }

  /** The token in the reply is the family's newest if and only if the token of the request was: in the
      grace period the client is given back the superseded one, not the one it was rotated to. */
  lemma ReplyIsNewestIff(qs: seq<Timed>, token: Token, now: Time)
    requires InTime(qs) && Latest(qs) <= now
    requires RefreshReply(After(qs), token, now).Tokens?
    ensures var s, s' := After(qs), AfterRefresh(After(qs), token, now);
            HeadIs(s'.rows, s.rows[token].family, RefreshReply(s, token, now).refresh)
            <==> s.rows[token].supersededAt.None?
  {
    RunKeepsInv(qs);
    var s := After(qs);
    var f := s.rows[token].family;
    if s.rows[token].supersededAt.None? {
      RotationKeepsInv(s, token, Latest(qs), now);
      var s' := Rotated(s, token, now);
      assert FamilyOk(s', f);
      var head :| HeadIs(s'.rows, f, head);
      assert IsHead(s'.rows, f, s.nextToken);
    }
  }

  /** A run that shows it: one second after a login and a refresh, the first token, used again, is
      answered with itself. */
  lemma GraceReplyIsSuperseded(user: User)
    ensures var qs := [Timed(Login(user), 0), Timed(Refresh(0), 0)];
            && InTime(qs) && RefreshReply(After(qs), 0, 1_000_000) == Tokens(user, 0)
            && AfterRefresh(After(qs), 0, 1_000_000) == After(qs)
            && HeadIs(After(qs).rows, 0, 1) && !HeadIs(After(qs).rows, 0, 0)
  {
    var qs := [Timed(Login(user), 0), Timed(Refresh(0), 0)];
    assert qs[..1] == [Timed(Login(user), 0)] && qs[..1][..0] == [];
    var s := After(qs);
    assert After(qs[..1]) == AfterLogin(EMPTY, user, 0);
    assert s == Rotated(After(qs[..1]), 0, 0);
    assert 1 in s.rows && Current(s.rows[1], 0, 1_000_000);
  }

  /** A client that adopts the token of a grace-period reply and refreshes with it once the period is
      over has its whole family revoked. */
  lemma GraceReplyLeadsToRevocation(s: State, token: Token, now: Time, later: Time)
    requires token in s.rows && InGrace(s.rows[token], now) && RefreshReply(s, token, now).Tokens?
    requires now <= later <= s.rows[token].expiresAt && !InGrace(s.rows[token], later)
    ensures var adopted := RefreshReply(s, token, now).refresh;
            var s' := AfterRefresh(s, token, now);
            adopted == token && RefreshReply(s', adopted, later) == ReplayDetected
            && forall t :: t in s.rows && s.rows[t].family == s.rows[token].family
                       ==> AfterRefresh(s', adopted, later).rows[t].revokedAt.Some?
  {
  }
}
