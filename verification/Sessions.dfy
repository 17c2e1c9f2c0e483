/**
 Session rows and the store calls on them, and the auth service that uses them.
 Times are unix milliseconds; tokens stand for their hashes.
 */
module Sessions {
  import opened Wrappers

  type Sid = nat
  type User = nat

  /** A token the service minted, or a string nobody was ever given. */
  datatype Token = Minted(n: nat) | Junk(n: nat)

  const SESSION_TTL: int := 14 * 24 * 60 * 60 * 1000
  const REFRESH_AFTER: int := SESSION_TTL / 2

  datatype Session = Session(
    user: User,
    resume: Token,          // the live resume token
    prev: Option<Token>,    // the one rotated away last
    expires: int,           // 0 = never
    revokedAt: int)         // 0 = not revoked

  predicate ValidAt(s: Session, now: int) {
    s.revokedAt == 0 && !(s.expires != 0 && now > s.expires)
  }

  function Revoked(s: Session, at: int): Session { s.(revokedAt := at) }

  /** TouchSession: extends a live session, leaves a revoked or expired one alone. */
  function Touched(s: Session, expires: int, now: int): Session {
    if s.revokedAt != 0 || (s.expires != 0 && s.expires <= now) then s
    else if expires > s.expires then s.(expires := expires)
    else s
  }

  /** RotateResumeToken, once its compare-and-swap has succeeded. */
  function Rotated(s: Session, next: Token): Session {
    s.(prev := Some(s.resume), resume := next)
  }

  /** Whether using a session at `now` writes a new expiry. */
  predicate NeedsRefresh(s: Session, now: int) {
    s.expires != 0 && s.expires - now <= SESSION_TTL - REFRESH_AFTER
  }

  /** Authenticate, run without interference, on one row. */
  function Authenticated(s: Session, now: int): Session {
    if ValidAt(s, now) && NeedsRefresh(s, now) then Touched(s, now + SESSION_TTL, now) else s
  }

  /** The sessions still valid at `now` other than `keep`. */
  function Others(rows: map<Sid, Session>, user: User, keep: Option<Sid>, now: int): set<Sid> {
    set id | id in rows && rows[id].user == user && ValidAt(rows[id], now) && Some(id) != keep
  }

  function RevokeThese(rows: map<Sid, Session>, ids: set<Sid>, now: int): (r: map<Sid, Session>)
    ensures r.Keys == rows.Keys
  {
    map id | id in rows :: if id in ids then Revoked(rows[id], now) else rows[id]
  }

  /** The ids listed, leaving out the one to keep. */
  ghost function Named(ids: seq<Sid>, keep: Option<Sid>): set<Sid> {
    set id | id in ids && Some(id) != keep
  }

  lemma NamedNext(ids: seq<Sid>, keep: Option<Sid>, i: nat)
    requires i < |ids| && forall j, k :: 0 <= j < k < |ids| ==> ids[j] != ids[k]
    ensures ids[i] !in Named(ids[..i], keep)
    ensures Named(ids[..i + 1], keep) == Named(ids[..i], keep) + if Some(ids[i]) == keep then {} else {ids[i]}
  {
    assert ids[..i + 1] == ids[..i] + [ids[i]];
  }

  lemma NamedIsOthers(rows: map<Sid, Session>, live: seq<Sid>, user: User, keep: Option<Sid>, now: int)
    requires forall id :: id in live <==> id in rows && rows[id].user == user && ValidAt(rows[id], now)
    ensures Named(live, keep) == Others(rows, user, keep, now)
  {
  }

  /** RevokeAll's loop, once the ids in `done` have been dealt with. */
  ghost predicate LoopInv(rows: map<Sid, Session>, current: map<Sid, Session>, done: set<Sid>, fails: set<Sid>,
                          now: int, revoked: nat, ok: bool) {
    && current == RevokeThese(rows, done - fails, now)
    && revoked == |done - fails|
    && (ok <==> done * fails == {})
  }

  lemma LoopStart(rows: map<Sid, Session>, live: seq<Sid>, keep: Option<Sid>, fails: set<Sid>, now: int)
    ensures LoopInv(rows, rows, Named(live[..0], keep), fails, now, 0, true)
  {
    assert Named(live[..0], keep) - fails == {};
    assert rows == RevokeThese(rows, {}, now);
  }

  lemma LoopEnd(rows: map<Sid, Session>, current: map<Sid, Session>, done: set<Sid>, fails: set<Sid>, now: int,
                revoked: nat, ok: bool)
    requires LoopInv(rows, current, done, fails, now, revoked, ok)
    ensures current == RevokeThese(rows, done - fails, now)
    ensures revoked == |done - fails| && (ok <==> done * fails == {})
  {
  }

  lemma LoopNext(rows: map<Sid, Session>, current: map<Sid, Session>, done: set<Sid>, x: Sid, fails: set<Sid>,
                 now: int, revoked: nat, ok: bool)
    requires LoopInv(rows, current, done, fails, now, revoked, ok) && x in rows && x !in done
    ensures x in current
    ensures
      if x in fails then LoopInv(rows, current, done + {x}, fails, now, revoked, false)
      else LoopInv(rows, current[x := Revoked(current[x], now)], done + {x}, fails, now, revoked + 1, ok)
  {
    if x in fails {
      assert (done + {x}) - fails == done - fails;
      assert x in (done + {x}) * fails;
    } else {
      assert (done + {x}) - fails == (done - fails) + {x};
      assert (done + {x}) * fails == done * fails;
      assert current[x := Revoked(current[x], now)] == RevokeThese(rows, (done - fails) + {x}, now);
    }
  }

  lemma NoneFailed(ids: set<Sid>, fails: set<Sid>)
    requires ids * fails == {}
    ensures ids - fails == ids
  {
    forall id | id in ids ensures id !in fails {
      assert id !in ids * fails;
    }
  }

  const MIN_PASSWORD_LEN := 6

  datatype PasswordChange = Weak | NoUser | Wrong | Same | NotRevoked | Changed(closed: nat)

  class Service {
    var sessions: map<Sid, Session>
    var passwords: map<User, string>   // what each stored hash verifies

    /** ListSessions: the caller's live sessions only. */
    method ListSessions(user: User, now: int) returns (live: seq<Sid>)
      ensures forall id :: id in live <==> id in sessions && sessions[id].user == user && ValidAt(sessions[id], now)
      ensures forall i, j :: 0 <= i < j < |live| ==> live[i] != live[j]
    {
      live := [];
      var rows := set id | id in sessions && sessions[id].user == user;
      while rows != {}
        invariant forall id :: id in live ==> id in sessions && sessions[id].user == user && ValidAt(sessions[id], now)
        invariant forall id ::
          id in sessions && sessions[id].user == user && ValidAt(sessions[id], now) ==> id in live || id in rows
        invariant forall id :: id in rows ==> id in sessions && id !in live
        invariant forall i, j :: 0 <= i < j < |live| ==> live[i] != live[j]
        invariant forall id :: id in rows ==> sessions[id].user == user
        decreases |rows|
      {
        var id :| id in rows;
        rows := rows - {id};
        if ValidAt(sessions[id], now) {
          live := live + [id];
        }
      }
    }

    /**
     RevokeAll: every live session of the account but `keep`. `fails` says which
     store calls fail; the loop carries on past them.
     */
    method RevokeAll(user: User, keep: Option<Sid>, now: int, fails: set<Sid>) returns (revoked: nat, ok: bool)
      requires now > 0
      modifies this`sessions
      ensures ok <==> Others(old(sessions), user, keep, now) * fails == {}
      ensures revoked == |Others(old(sessions), user, keep, now) - fails|
      ensures sessions == RevokeThese(old(sessions), Others(old(sessions), user, keep, now) - fails, now)
    {
      var live := ListSessions(user, now);
      NamedIsOthers(sessions, live, user, keep, now);
      revoked, ok := RevokeEach(live, keep, now, fails);
      LoopEnd(old(sessions), sessions, Named(live, keep), fails, now, revoked, ok);
    }

    method RevokeEach(live: seq<Sid>, keep: Option<Sid>, now: int, fails: set<Sid>) returns (revoked: nat, ok: bool)
      requires forall i :: 0 <= i < |live| ==> live[i] in sessions
      requires forall i, j :: 0 <= i < j < |live| ==> live[i] != live[j]
      modifies this`sessions
      ensures LoopInv(old(sessions), sessions, Named(live, keep), fails, now, revoked, ok)
    {
      hide Named, RevokeThese, LoopInv;
      ghost var rows := sessions;
      revoked, ok := 0, true;
      LoopStart(rows, live, keep, fails, now);
      for i := 0 to |live|
        invariant LoopInv(rows, sessions, Named(live[..i], keep), fails, now, revoked, ok)
      {
        NamedNext(live, keep, i);
        if Some(live[i]) != keep {
          LoopNext(rows, sessions, Named(live[..i], keep), live[i], fails, now, revoked, ok);
          if live[i] in fails {
            ok := false;
          } else {
            sessions := sessions[live[i] := Revoked(sessions[live[i]], now)];
            revoked := revoked + 1;
          }
        }
      }
      assert live[..|live|] == live;
    }

    /**
     ChangePassword: the old password is confirmed, the new one written, and only then
     every other session closed; a failure to close them is reported, the change stays.
     */
    method ChangePassword(user: User, was: string, next: string, keep: Option<Sid>, now: int, fails: set<Sid>)
      returns (r: PasswordChange)
      requires now > 0
      modifies this
      ensures r == Weak <==> |next| < MIN_PASSWORD_LEN
      ensures r == NoUser <==> |next| >= MIN_PASSWORD_LEN && user !in old(passwords)
      ensures r == Wrong <==>
        |next| >= MIN_PASSWORD_LEN && user in old(passwords) && old(passwords)[user] != was
      ensures r.Changed? || r.NotRevoked? <==>
        |next| >= MIN_PASSWORD_LEN && user in old(passwords) && old(passwords)[user] == was && next != was
      ensures r.Changed? || r.NotRevoked? ==>
        && passwords == old(passwords)[user := next]
        && sessions == RevokeThese(old(sessions), Others(old(sessions), user, keep, now) - fails, now)
        && (r.Changed? <==> Others(old(sessions), user, keep, now) * fails == {})
      ensures r.Changed? ==> r.closed == |Others(old(sessions), user, keep, now)|
      ensures !r.Changed? && !r.NotRevoked? ==> passwords == old(passwords) && sessions == old(sessions)
    {
      if |next| < MIN_PASSWORD_LEN {
        return Weak;
      }
      if user !in passwords {
        return NoUser;
      }
      if passwords[user] != was {
        return Wrong;
      }
      if passwords[user] == next {
        return Same;
      }
      passwords := passwords[user := next];
      var n, ok := RevokeAll(user, keep, now, fails);
      if !ok {
        return NotRevoked;
      }
      NoneFailed(Others(old(sessions), user, keep, now), fails);
      r := Changed(n);
    }

    /** RevokeOwned: one session, only if it belongs to the caller. */
    method RevokeOwned(user: User, id: Sid, now: int) returns (found: bool)
      requires now > 0
      modifies this`sessions
      ensures found <==> id in old(sessions) && old(sessions)[id].user == user
      ensures found ==>
        var was := old(sessions)[id];
        sessions == old(sessions)[id := if was.revokedAt != 0 then was else Revoked(was, now)]
      ensures found ==> id in sessions && !ValidAt(sessions[id], now)
      ensures !found ==> sessions == old(sessions)
    {
      found := id in sessions && sessions[id].user == user;
      if found && sessions[id].revokedAt == 0 {
        sessions := sessions[id := Revoked(sessions[id], now)];
      }
    }

    /** Authenticate by a bearer token that resolves to `id`, if to anything. */
    method Authenticate(id: Option<Sid>, now: int) returns (ok: bool, expires: int)
      modifies this`sessions
      ensures ok <==> id.Some? && id.value in old(sessions) && ValidAt(old(sessions)[id.value], now)
      ensures ok ==> sessions == old(sessions)[id.value := Authenticated(old(sessions)[id.value], now)]
      ensures !ok ==> sessions == old(sessions)
      ensures ok ==>
        var was := old(sessions)[id.value];
        expires == if NeedsRefresh(was, now) then now + SESSION_TTL else was.expires
    {
      ok, expires := false, 0;
      if id.None? || id.value !in sessions {
        return;
      }
      var s := sessions[id.value];
      if !ValidAt(s, now) {
        return;
      }
      ok, expires := true, s.expires;
      if s.expires != 0 && !(s.expires - now > SESSION_TTL - REFRESH_AFTER) {
        sessions := sessions[id.value := Touched(s, now + SESSION_TTL, now)];
        expires := now + SESSION_TTL;
      }
    }
  }

  // --- one session over time ---

  /** A session row after Authenticate calls at the given times, in order. */
  function Used(s: Session, times: seq<int>): Session {
    if times == [] then s
    else Authenticated(Used(s, times[..|times| - 1]), times[|times| - 1])
  }

  function Last(from: int, times: seq<int>): int {
    if times == [] then from else times[|times| - 1]
  }

  /** Uses start from `from` and are never more than half the TTL apart. */
  ghost predicate Steady(from: int, times: seq<int>) {
    forall i :: 0 <= i < |times| ==>
      var before := Last(from, times[..i]);
      before <= times[i] <= before + REFRESH_AFTER
  }

  ghost predicate Fresh(s: Session, from: int) {
    from > 0 && s.revokedAt == 0 && s.expires == from + SESSION_TTL
  }

  /**
   A session used at gaps of at most half the TTL never lapses: whatever the times,
   every one of those uses finds it valid, and it stays valid for at least half the
   TTL after the last of them.
   */
  lemma {:induction false} SteadyUseNeverLapses(s: Session, from: int, times: seq<int>)
    requires Fresh(s, from) && Steady(from, times)
    ensures forall i :: 0 <= i < |times| ==> ValidAt(Used(s, times[..i]), times[i])
    ensures
      var u, last := Used(s, times), Last(from, times);
      last + REFRESH_AFTER < u.expires <= last + SESSION_TTL && u.revokedAt == 0 && last > 0
  {
    if times != [] {
      var n := |times| - 1;
      var before := times[..n];
      SteadyBefore(from, times);
      SteadyUseNeverLapses(s, from, before);
      UseRefreshes(Used(s, before), Last(from, before), times[n]);
      hide Authenticated, ValidAt, Steady;
      forall i | 0 <= i < |times| ensures ValidAt(Used(s, times[..i]), times[i]) {
        if i < n { assert before[i] == times[i] && before[..i] == times[..i]; }
      }
    }
  }

  lemma SteadyBefore(from: int, times: seq<int>)
    requires times != [] && Steady(from, times)
    ensures
      var n := |times| - 1;
      var last := Last(from, times[..n]);
      Steady(from, times[..n]) && last <= times[n] <= last + REFRESH_AFTER
  {
    hide Last;
    var before := times[..|times| - 1];
    forall i | 0 <= i < |before| ensures before[..i] == times[..i] {}
  }

  /** One use within the gap finds the session valid and leaves it as fresh as it needs. */
  lemma UseRefreshes(s: Session, last: int, now: int)
    requires s.revokedAt == 0 && last > 0 && last + REFRESH_AFTER < s.expires <= last + SESSION_TTL
    requires last <= now <= last + REFRESH_AFTER
    ensures ValidAt(s, now)
    ensures
      var u := Authenticated(s, now);
      u.revokedAt == 0 && now + REFRESH_AFTER < u.expires <= now + SESSION_TTL
  {
  }

  /**
   The bound is tight: a gap one millisecond longer is still accepted but may not be
   extended, because the store refuses to touch a row at the very instant it
   expires, and the session lapses although it is still in use.
   */
  lemma LongerGapsLapse(s: Session, from: int)
    requires Fresh(s, from)
    ensures
      var first := from + REFRESH_AFTER - 1;
      var second := first + REFRESH_AFTER + 1;
      var third := second + 1;
      && ValidAt(Used(s, [first]), second)
      && !ValidAt(Used(s, [first, second]), third)
  {
    var first := from + REFRESH_AFTER - 1;
    var second := first + REFRESH_AFTER + 1;
    assert [first][..0] == [] && [first, second][..1] == [first];
    assert Used(s, [first]) == Authenticated(Used(s, []), first);
  }
}
