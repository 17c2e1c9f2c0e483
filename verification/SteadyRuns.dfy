/**
 A session in steady use, when each Authenticate looks the session up at one instant and
 extends it at a later one, with anything in between.
 */
module SteadyRuns {
  import opened Wrappers
  import opened Sessions
  import opened AuthRuns

  /** Used at most `gap` ago, and no extension has been under way for more than `delay`. */
  ghost predicate InTime(s: State, sid: Sid, gap: int, delay: int) {
    && sid in s.db.lastAuth && s.db.now <= s.db.lastAuth[sid] + gap
    && forall id :: id in s.calls && s.calls[id].Touching? && s.calls[id].sid == sid ==>
         s.db.now <= s.calls[id].expires - SESSION_TTL + delay
  }

  ghost predicate Steady(store: Store, steps: seq<Step>, sid: Sid, gap: int, delay: int) {
    forall i :: 0 <= i <= |steps| && sid in Run(store, steps[..i]).db.sessions ==>
      InTime(Run(store, steps[..i]), sid, gap, delay)
  }

  /** This extension is due before the session expires, and will do for its last use. */
  ghost predicate Saves(s: State, id: nat, sid: Sid, delay: int)
    requires sid in s.db.sessions && sid in s.db.lastAuth
  {
    && id in s.calls && s.calls[id].Touching? && s.calls[id].sid == sid
    && s.calls[id].expires - SESSION_TTL + delay < s.db.sessions[sid].expires
    && s.calls[id].expires > s.db.lastAuth[sid] + REFRESH_AFTER
  }

  /** Half the TTL is left from the last use, or an extension to that is on its way. */
  ghost predicate Secure(s: State, sid: Sid, delay: int) {
    sid in s.db.sessions && sid in s.db.lastAuth && s.db.sessions[sid].revokedAt == 0 ==>
      || s.db.sessions[sid].expires > s.db.lastAuth[sid] + REFRESH_AFTER
      || exists id :: Saves(s, id, sid, delay)
  }

  ghost predicate Bounds(gap: int, delay: int) {
    0 <= gap && 0 <= delay < REFRESH_AFTER && gap + delay <= REFRESH_AFTER
  }

  lemma SecureIsValid(s: State, sid: Sid, gap: int, delay: int)
    requires Bounds(gap, delay) && sid in s.db.sessions && s.db.sessions[sid].revokedAt == 0
    requires InTime(s, sid, gap, delay) && Secure(s, sid, delay)
    ensures s.db.now < s.db.sessions[sid].expires
  {
  }

  lemma LookupKeepsSecure(store: Store, s: State, id: nat, sid: Sid, gap: int, delay: int)
    requires Inv(store, s) && Bounds(gap, delay) && Secure(s, sid, delay)
    requires sid in s.db.sessions && InTime(s, sid, gap, delay)
    requires id in s.calls && s.calls[id] == Bearer(sid)
    ensures Secure(Apply(store, s, Next(id)), sid, delay)
  {
    var s' := Apply(store, s, Next(id));
    if s.db.sessions[sid].revokedAt == 0 {
      SecureIsValid(s, sid, gap, delay);
      if s.db.sessions[sid].expires <= s.db.now + REFRESH_AFTER {
        if s.db.sessions[sid].expires > s.db.lastAuth[sid] + REFRESH_AFTER {
          assert Saves(s', id, sid, delay);
        } else {
          var k :| Saves(s, k, sid, delay);
          assert k != id && s'.calls[k] == s.calls[k];
          assert Saves(s', k, sid, delay);
        }
      }
    }
  }

  lemma TouchKeepsSecure(store: Store, s: State, id: nat, sid: Sid, gap: int, delay: int)
    requires Inv(store, s) && Bounds(gap, delay) && Secure(s, sid, delay)
    requires sid in s.db.sessions && InTime(s, sid, gap, delay)
    requires id in s.calls && s.calls[id].Touching? && s.calls[id].sid == sid
    ensures Secure(Apply(store, s, Next(id)), sid, delay)
  {
    var s' := Apply(store, s, Next(id));
    if s.db.sessions[sid].revokedAt == 0 {
      SecureIsValid(s, sid, gap, delay);
      assert s'.db.sessions[sid].expires >= s.db.sessions[sid].expires;
      assert s'.db.lastAuth == s.db.lastAuth;
      if s.db.sessions[sid].expires <= s.db.lastAuth[sid] + REFRESH_AFTER {
        var k :| Saves(s, k, sid, delay);
        if k != id {
          assert s'.calls[k] == s.calls[k];
          assert Saves(s', k, sid, delay);
        }
      }
    }
  }

  /** Any other step leaves the row's expiry, its last use and its extensions alone. */
  lemma OthersKeepSecure(store: Store, s: State, step: Step, sid: Sid, delay: int)
    requires Inv(store, s) && Secure(s, sid, delay) && sid in s.db.sessions
    requires !(step.Next? && step.id in s.calls &&
               (s.calls[step.id] == Bearer(sid) || (s.calls[step.id].Touching? && s.calls[step.id].sid == sid)))
    ensures Secure(Apply(store, s, step), sid, delay)
  {
    var s' := Apply(store, s, step);
    RowStays(store, s, step, sid);
    if s'.db.sessions[sid].revokedAt == 0 && s.db.sessions[sid].expires <= s.db.lastAuth[sid] + REFRESH_AFTER {
      var k :| Saves(s, k, sid, delay);
      CallStaysThere(store, s, step, k, sid);
      assert Saves(s', k, sid, delay);
    }
  }

  lemma RowStays(store: Store, s: State, step: Step, sid: Sid)
    requires Inv(store, s) && sid in s.db.sessions
    requires !(step.Next? && step.id in s.calls &&
               (s.calls[step.id] == Bearer(sid) || (s.calls[step.id].Touching? && s.calls[step.id].sid == sid)))
    ensures
      var d, d' := s.db, Apply(store, s, step).db;
      && sid in d.lastAuth && sid in d'.sessions && sid in d'.lastAuth && d'.lastAuth[sid] == d.lastAuth[sid]
      && d'.sessions[sid].expires == d.sessions[sid].expires
      && (d'.sessions[sid].revokedAt == 0 ==> d.sessions[sid].revokedAt == 0)
  {
    hide CallOk, Wins, Outcome;
  }

  lemma CallStaysThere(store: Store, s: State, step: Step, k: nat, sid: Sid)
    requires k in s.calls && s.calls[k].Touching? && s.calls[k].sid == sid
    requires !(step.Next? && step.id == k)
    ensures k in Apply(store, s, step).calls && Apply(store, s, step).calls[k] == s.calls[k]
  {
    hide Effect, Outcome, Kill, NewSession;
  }

  lemma NewIsSecure(store: Store, s: State, step: Step, sid: Sid, delay: int)
    requires Inv(store, s) && sid !in s.db.sessions && sid in Apply(store, s, step).db.sessions
    ensures Secure(Apply(store, s, step), sid, delay)
  {
    hide CallOk, Wins, Outcome;
    assert s.db.lastAuth.Keys == s.db.sessions.Keys;
  }

  lemma StepKeepsSecure(store: Store, s: State, step: Step, sid: Sid, gap: int, delay: int)
    requires Inv(store, s) && Bounds(gap, delay) && Secure(s, sid, delay)
    requires sid in s.db.sessions ==> InTime(s, sid, gap, delay)
    ensures Secure(Apply(store, s, step), sid, delay)
  {
    hide Inv, Secure, Apply, InTime, Bounds;
    if sid !in s.db.sessions {
      if sid in Apply(store, s, step).db.sessions {
        NewIsSecure(store, s, step, sid, delay);
      } else {
        AbsentIsSecure(Apply(store, s, step), sid, delay);
      }
    } else if step.Next? && step.id in s.calls && s.calls[step.id] == Bearer(sid) {
      LookupKeepsSecure(store, s, step.id, sid, gap, delay);
    } else if step.Next? && step.id in s.calls && s.calls[step.id].Touching? && s.calls[step.id].sid == sid {
      TouchKeepsSecure(store, s, step.id, sid, gap, delay);
    } else {
      OthersKeepSecure(store, s, step, sid, delay);
    }
  }

  lemma AbsentIsSecure(s: State, sid: Sid, delay: int)
    requires sid !in s.db.sessions
    ensures Secure(s, sid, delay)
  {
  }

  lemma {:induction false} RunIsSecure(store: Store, steps: seq<Step>, sid: Sid, gap: int, delay: int)
    requires Bounds(gap, delay) && Steady(store, steps, sid, gap, delay)
    ensures Secure(Run(store, steps), sid, delay)
  {
    hide Inv, Secure, Apply, InTime, Bounds;
    if steps == [] {
      AbsentIsSecure(Run(store, steps), sid, delay);
    } else {
      var n := |steps| - 1;
      forall i | 0 <= i <= n ensures steps[..n][..i] == steps[..i] {}
      RunIsSecure(store, steps[..n], sid, gap, delay);
      RunKeeps(store, steps[..n]);
      StepKeepsSecure(store, Run(store, steps[..n]), steps[n], sid, gap, delay);
    }
  }

  /**
   Over every interleaving, a session that is never more than `gap` from its last accepted
   use, and whose extensions reach the store within `delay` of their lookups, is valid
   unless it was revoked, provided gap and delay together stay within half the TTL.
   */
  lemma SteadyUseNeverLapses(store: Store, steps: seq<Step>, sid: Sid, gap: int, delay: int)
    requires 0 <= gap && 0 <= delay < REFRESH_AFTER && gap + delay <= REFRESH_AFTER
    requires Steady(store, steps, sid, gap, delay) && sid in Run(store, steps).db.sessions
    ensures
      var d := Run(store, steps).db;
      d.sessions[sid].revokedAt == 0 ==> ValidAt(d.sessions[sid], d.now)
  {
    RunIsSecure(store, steps, sid, gap, delay);
    var s := Run(store, steps);
    assert steps[..|steps|] == steps;
    if s.db.sessions[sid].revokedAt == 0 {
      SecureIsValid(s, sid, gap, delay);
    }
  }

  /** The run: a use just before an extension is due, one half a TTL later, and an
      extension one millisecond after that lookup. */
  const LATE_TOUCH: seq<Step> :=
    [Login(0), Tick(REFRESH_AFTER - 1), Begin(0, Bearer(0)), Next(0),
     Tick(REFRESH_AFTER), Begin(1, Bearer(0)), Next(1), Tick(1), Next(1), Tick(1)]

  lemma Snoc(store: Store, steps: seq<Step>, i: nat)
    requires i < |steps|
    ensures Run(store, steps[..i + 1]) == Apply(store, Run(store, steps[..i]), steps[i])
  {
    assert steps[..i + 1][..i] == steps[..i];
  }

  const ROW: Session := Session(0, Minted(0), None, SESSION_TTL + 1, 0)

  lemma LateTouchBegins(store: Store)
    ensures
      var s := Run(store, LATE_TOUCH[..4]);
      && s.db.now == REFRESH_AFTER && 0 in s.db.sessions && s.db.sessions[0] == ROW
      && s.calls.Keys == {0} && s.calls[0] == LoggedIn(0)
  {
    var r := LATE_TOUCH;
    StartIs(store, r);
    hide Run;
    Snoc(store, r, 0);
    Snoc(store, r, 1);
    Snoc(store, r, 2);
    Snoc(store, r, 3);
    var s3 := Run(store, r[..3]);
    assert s3.calls == map[0 := Bearer(0)] && s3.db.sessions == map[0 := ROW];
  }

  lemma LateTouchWaits(store: Store)
    ensures
      var s := Run(store, LATE_TOUCH[..7]);
      && s.db.now == SESSION_TTL && 0 in s.db.sessions && s.db.sessions[0] == ROW
      && 1 in s.calls && s.calls[1] == Touching(0, SESSION_TTL + SESSION_TTL)
  {
    var r := LATE_TOUCH;
    LateTouchBegins(store);
    hide Run;
    Snoc(store, r, 4);
    Snoc(store, r, 5);
    Snoc(store, r, 6);
  }

  /** The bound is tight: gaps of half the TTL and a delay of one millisecond can lapse. */
  lemma LateTouchLapses(store: Store)
    ensures
      var d := Run(store, LATE_TOUCH).db;
      0 in d.sessions && d.sessions[0].revokedAt == 0 && !ValidAt(d.sessions[0], d.now)
  {
    var r := LATE_TOUCH;
    LateTouchWaits(store);
    hide Run;
    Snoc(store, r, 7);
    Snoc(store, r, 8);
    Snoc(store, r, 9);
    assert r[..10] == r;
  }

  lemma StartIs(store: Store, steps: seq<Step>)
    ensures Run(store, steps[..0]) == Init()
  {
    assert steps[..0] == [];
  }
}
