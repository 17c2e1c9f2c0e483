/**
 The auth service under every interleaving: each call is cut at its store calls, and
 the pieces of concurrent calls alternate freely.
 */
module AuthRuns {
  import opened Wrappers
  import opened Sessions

  /** The in-memory store remembers every consumed resume token; the SQL row keeps
      only the latest one. */
  datatype Store = Memory | Postgres

  datatype Call =
    // Resume
    | Presented(t: Token)                        // not looked up yet
    | Found(t: Token, sid: Sid)                  // live, and valid when looked up
    | Missed(t: Token)                           // no live session has it
    | Lost(t: Token, sid: Sid)                   // the compare-and-swap failed
    | Seen(t: Token, sid: Sid, revoked: bool)    // it was consumed before
    | Resumed(t: Token, sid: Sid)
    | Refused(t: Token, sid: Sid)                // looked up invalid
    | Replayed(t: Token, sid: Sid)
    | Unknown(t: Token)
    // Authenticate
    | Bearer(sid: Sid)
    | Touching(sid: Sid, expires: int)
    | LoggedIn(sid: Sid)
    | Rejected(sid: Sid)
    // ChangePassword, after the hash is written
    | Listing(user: User, keep: Option<Sid>)
    | Revoking(keep: Option<Sid>, all: set<Sid>, todo: set<Sid>, failed: bool)
    | Cleared(keep: Option<Sid>, all: set<Sid>)
    | NotCleared

  datatype Db = Db(
    now: int,
    sessions: map<Sid, Session>,
    owner: map<Token, Sid>,       // the resume-token index: live and consumed
    next: nat,                    // tokens and sessions not handed out yet
    wins: seq<Token>,             // history: successful compare-and-swaps, in order
    lastAuth: map<Sid, int>)      // history: creation or last accepted Authenticate

  datatype State = State(db: Db, calls: map<nat, Call>)

  function Init(): State { State(Db(1, map[], map[], 0, [], map[]), map[]) }

  predicate Dead(d: Db, sid: Sid) {
    sid in d.sessions && !ValidAt(d.sessions[sid], d.now)
  }

  /** The token was minted and is no longer live. */
  predicate Spent(d: Db, t: Token) {
    t in d.owner && d.owner[t] in d.sessions && d.sessions[d.owner[t]].resume != t
  }

  /** The session a live token belongs to. */
  predicate Live(d: Db, t: Token) {
    t in d.owner && d.owner[t] in d.sessions && d.sessions[d.owner[t]].resume == t
  }

  /** What GetSessionByConsumedResumeToken finds. */
  predicate Remembers(store: Store, d: Db, t: Token) {
    Spent(d, t) && (store.Memory? || d.sessions[d.owner[t]].prev == Some(t))
  }

  function Put(d: Db, sid: Sid, row: Session): Db {
    d.(sessions := d.sessions[sid := row])
  }

  function Kill(d: Db, sid: Sid): Db {
    if sid in d.sessions then Put(d, sid, Revoked(d.sessions[sid], d.now)) else d
  }

  function Rotate(d: Db, sid: Sid): Db
    requires sid in d.sessions
  {
    var row := d.sessions[sid];
    d.(sessions := d.sessions[sid := Rotated(row, Minted(d.next))],
       owner := d.owner[Minted(d.next) := sid], next := d.next + 1, wins := d.wins + [row.resume])
  }

  function NewSession(d: Db, user: User): Db {
    d.(sessions := d.sessions[d.next := Session(user, Minted(d.next), None, d.now + SESSION_TTL, 0)],
       owner := d.owner[Minted(d.next) := d.next], next := d.next + 1,
       lastAuth := d.lastAuth[d.next := d.now])
  }

  /** The stage a call reaches by its next store call. */
  function Outcome(store: Store, d: Db, c: Call): Call {
    match c
    case Presented(t) =>
      if !Live(d, t) then Missed(t)
      else if ValidAt(d.sessions[d.owner[t]], d.now) then Found(t, d.owner[t])
      else Refused(t, d.owner[t])
    case Missed(t) =>
      if Remembers(store, d, t) then Seen(t, d.owner[t], d.sessions[d.owner[t]].revokedAt != 0)
      else Unknown(t)
    case Found(t, sid) =>
      if sid in d.sessions && d.sessions[sid].resume == t then Resumed(t, sid) else Lost(t, sid)
    case Lost(t, sid) => Replayed(t, sid)
    case Seen(t, sid, _) => Replayed(t, sid)
    case Bearer(sid) =>
      if sid !in d.sessions || !ValidAt(d.sessions[sid], d.now) then Rejected(sid)
      else if NeedsRefresh(d.sessions[sid], d.now) then Touching(sid, d.now + SESSION_TTL)
      else LoggedIn(sid)
    case Touching(sid, _) => LoggedIn(sid)
    case Listing(user, keep) =>
      Revoking(keep, (set x | x in d.sessions && d.sessions[x].user == user),
               Others(d.sessions, user, keep, d.now), false)
    case Revoking(keep, all, todo, failed) =>
      if todo != {} then c else if failed then NotCleared else Cleared(keep, all)
    case _ => c
  }

  /** What that store call does to the rows. */
  function Effect(d: Db, c: Call): Db {
    match c
    case Found(t, sid) => if sid in d.sessions && d.sessions[sid].resume == t then Rotate(d, sid) else d
    case Lost(_, sid) => Kill(d, sid)
    case Seen(_, sid, revoked) => if revoked then d else Kill(d, sid)
    case Bearer(sid) =>
      if sid !in d.sessions || !ValidAt(d.sessions[sid], d.now) then d
      else d.(lastAuth := d.lastAuth[sid := d.now])
    case Touching(sid, expires) =>
      if sid in d.sessions then Put(d, sid, Touched(d.sessions[sid], expires, d.now)) else d
    case _ => d
  }

  datatype Step =
    | Tick(ms: nat)
    | Login(user: User)
    | Logout(sid: Sid)
    | Begin(id: nat, call: Call)
    | Next(id: nat)                               // the call makes its next store call
    | NextRevoke(id: nat, x: Sid, fails: bool)    // ... within RevokeAll's loop

  /** A call starts at its first store call, with a minted token or with junk. */
  predicate MayBegin(s: State, id: nat, call: Call) {
    id !in s.calls &&
    match call
    case Presented(t) => t.Junk? || t in s.db.owner
    case Bearer(_) => true
    case Listing(_, _) => true
    case _ => false
  }

  function RevokeOne(s: State, id: nat, x: Sid, fails: bool): State {
    if id !in s.calls || !s.calls[id].Revoking? || x !in s.calls[id].todo then s
    else
      var c := s.calls[id].(todo := s.calls[id].todo - {x});
      if fails then State(s.db, s.calls[id := c.(failed := true)])
      else State(Kill(s.db, x), s.calls[id := c])
  }

  function Apply(store: Store, s: State, step: Step): State {
    match step
    case Tick(ms) => s.(db := s.db.(now := s.db.now + ms))
    case Login(user) => s.(db := NewSession(s.db, user))
    case Logout(sid) => s.(db := Kill(s.db, sid))
    case Begin(id, call) => if MayBegin(s, id, call) then s.(calls := s.calls[id := call]) else s
    case Next(id) =>
      if id !in s.calls then s
      else State(Effect(s.db, s.calls[id]), s.calls[id := Outcome(store, s.db, s.calls[id])])
    case NextRevoke(id, x, fails) => RevokeOne(s, id, x, fails)
  }

  function Run(store: Store, steps: seq<Step>): State {
    if steps == [] then Init()
    else Apply(store, Run(store, steps[..|steps| - 1]), steps[|steps| - 1])
  }

  // --- what every step keeps ---

  ghost predicate Rows(d: Db) {
    && d.now > 0
    && d.lastAuth.Keys == d.sessions.Keys
    && (forall t :: t in d.owner ==> t.Minted? && t.n < d.next && d.owner[t] in d.sessions)
    && (forall x :: x in d.sessions ==>
          && x < d.next
          && d.sessions[x].resume in d.owner && d.owner[d.sessions[x].resume] == x
          && 0 < d.sessions[x].expires <= d.lastAuth[x] + SESSION_TTL
          && d.lastAuth[x] <= d.now)
  }

  ghost predicate Wins(d: Db) {
    && (forall i :: 0 <= i < |d.wins| ==> Spent(d, d.wins[i]))
    && (forall i, j :: 0 <= i < j < |d.wins| ==> d.wins[i] != d.wins[j])
  }

  /** What is known of a call at each of its stages. */
  ghost predicate CallOk(store: Store, d: Db, c: Call) {
    match c
    case Presented(t) => t.Junk? || t in d.owner
    case Found(t, sid) => t in d.owner && d.owner[t] == sid
    case Missed(t) => t.Junk? || Spent(d, t)
    case Lost(t, sid) => Spent(d, t) && d.owner[t] == sid
    case Seen(t, sid, revoked) => Spent(d, t) && d.owner[t] == sid && (revoked ==> Dead(d, sid))
    case Resumed(t, sid) => t in d.wins && Spent(d, t) && d.owner[t] == sid
    case Refused(t, sid) => t in d.owner && d.owner[t] == sid && Dead(d, sid)
    case Replayed(t, sid) => Spent(d, t) && d.owner[t] == sid && Dead(d, sid)
    case Unknown(t) => t.Junk? || (store.Postgres? && Spent(d, t))
    case Touching(sid, expires) => sid in d.lastAuth && expires <= d.lastAuth[sid] + SESSION_TTL
    case Revoking(keep, all, todo, failed) =>
      && todo <= d.sessions.Keys
      && (forall x :: x in all ==> Some(x) == keep || x in todo || failed || Dead(d, x))
    case Cleared(keep, all) => forall x :: x in all ==> Some(x) == keep || Dead(d, x)
    case _ => true
  }

  ghost predicate Inv(store: Store, s: State) {
    Rows(s.db) && Wins(s.db) && forall id :: id in s.calls ==> CallOk(store, s.db, s.calls[id])
  }

  /** Facts that, once true, stay true. */
  ghost predicate Grows(d: Db, d': Db) {
    && (forall t :: t in d.owner ==> t in d'.owner && d'.owner[t] == d.owner[t])
    && d.sessions.Keys <= d'.sessions.Keys
    && (forall x :: Dead(d, x) ==> Dead(d', x))
    && (forall t :: Spent(d, t) ==> Spent(d', t))
    && d.wins <= d'.wins
    && (forall x :: x in d.lastAuth ==> x in d'.lastAuth && d.lastAuth[x] <= d'.lastAuth[x])
  }

  ghost predicate Good(d: Db, d': Db) { Rows(d') && Wins(d') && Grows(d, d') }

  lemma CallStays(store: Store, d: Db, d': Db, c: Call)
    requires Grows(d, d') && CallOk(store, d, c)
    ensures CallOk(store, d', c)
  {
  }

  /** A row rewritten without reviving it or changing its token. */
  lemma PutGood(d: Db, sid: Sid, row: Session)
    requires Rows(d) && Wins(d) && sid in d.sessions
    requires row.resume == d.sessions[sid].resume
    requires ValidAt(row, d.now) ==> ValidAt(d.sessions[sid], d.now)
    requires 0 < row.expires <= d.lastAuth[sid] + SESSION_TTL
    ensures Good(d, Put(d, sid, row))
  {
  }

  lemma KillGood(d: Db, sid: Sid)
    requires Rows(d) && Wins(d)
    ensures Good(d, Kill(d, sid))
    ensures sid in d.sessions ==> Dead(Kill(d, sid), sid)
  {
    if sid in d.sessions {
      PutGood(d, sid, Revoked(d.sessions[sid], d.now));
    }
  }

  lemma RotateRows(d: Db, sid: Sid)
    requires Rows(d) && sid in d.sessions
    ensures Rows(Rotate(d, sid))
  {
    hide Spent, Dead;
    assert Minted(d.next) !in d.owner;
  }

  lemma RotateGrows(d: Db, sid: Sid)
    requires Rows(d) && sid in d.sessions
    ensures Grows(d, Rotate(d, sid)) && Spent(Rotate(d, sid), d.sessions[sid].resume)
  {
    assert Minted(d.next) !in d.owner;
  }

  lemma RotateWins(d: Db, sid: Sid)
    requires Rows(d) && Wins(d) && sid in d.sessions
    ensures Wins(Rotate(d, sid)) && d.sessions[sid].resume in Rotate(d, sid).wins
  {
    var t, d' := d.sessions[sid].resume, Rotate(d, sid);
    RotateGrows(d, sid);
    assert !Spent(d, t);
    assert d'.wins[|d.wins|] == t;
    forall i | 0 <= i < |d'.wins| ensures Spent(d', d'.wins[i]) {
      if i < |d.wins| { assert Spent(d, d.wins[i]); }
    }
    forall i | 0 <= i < |d.wins| ensures d.wins[i] != t {
      assert Spent(d, d.wins[i]);
    }
  }

  lemma LoginGood(d: Db, user: User)
    requires Rows(d) && Wins(d)
    ensures Good(d, NewSession(d, user))
  {
    assert d.next !in d.sessions && Minted(d.next) !in d.owner;
    LoginRows(d, user);
  }

  lemma LoginRows(d: Db, user: User)
    requires Rows(d)
    ensures Rows(NewSession(d, user))
  {
  }

  lemma EffectIsGood(store: Store, d: Db, c: Call)
    requires Rows(d) && Wins(d) && CallOk(store, d, c)
    ensures Good(d, Effect(d, c))
  {
    match c
    case Found(t, sid) =>
      if d.sessions[sid].resume == t {
        RotateRows(d, sid);
        RotateGrows(d, sid);
        RotateWins(d, sid);
      }
    case Lost(t, sid) => KillGood(d, sid);
    case Seen(t, sid, revoked) => KillGood(d, sid);
    case Touching(sid, expires) =>
      if sid in d.sessions { PutGood(d, sid, Touched(d.sessions[sid], expires, d.now)); }
    case _ =>
  }

  lemma OutcomeIsOk(store: Store, d: Db, c: Call)
    requires Rows(d) && Wins(d) && CallOk(store, d, c)
    ensures CallOk(store, Effect(d, c), Outcome(store, d, c))
  {
    hide CallOk, Effect, Outcome, Rows, Wins;
    if c.Found? || c.Lost? || c.Seen? {
      WriteOutcomeIsOk(store, d, c);
    } else if c.Listing? || c.Revoking? {
      ListOutcomeIsOk(store, d, c);
    } else {
      ReadOutcomeIsOk(store, d, c);
    }
  }

  lemma WriteOutcomeIsOk(store: Store, d: Db, c: Call)
    requires Rows(d) && Wins(d) && CallOk(store, d, c) && (c.Found? || c.Lost? || c.Seen?)
    ensures CallOk(store, Effect(d, c), Outcome(store, d, c))
  {
    match c
    case Found(t, sid) =>
      if d.sessions[sid].resume == t {
        RotateGrows(d, sid);
        RotateWins(d, sid);
      }
    case Lost(t, sid) => KillGood(d, sid);
    case Seen(t, sid, revoked) => KillGood(d, sid);
  }

  lemma ListOutcomeIsOk(store: Store, d: Db, c: Call)
    requires Rows(d) && CallOk(store, d, c) && (c.Listing? || c.Revoking?)
    ensures CallOk(store, Effect(d, c), Outcome(store, d, c))
  {
  }

  lemma ReadOutcomeIsOk(store: Store, d: Db, c: Call)
    requires Rows(d) && CallOk(store, d, c)
    requires !(c.Found? || c.Lost? || c.Seen? || c.Listing? || c.Revoking?)
    ensures CallOk(store, Effect(d, c), Outcome(store, d, c))
  {
    hide Others;
  }

  lemma CallsStay(store: Store, s: State, d': Db)
    requires Inv(store, s) && Grows(s.db, d')
    ensures forall k :: k in s.calls ==> CallOk(store, d', s.calls[k])
  {
    hide CallOk, Grows, Rows, Wins;
    forall k | k in s.calls ensures CallOk(store, d', s.calls[k]) {
      CallStays(store, s.db, d', s.calls[k]);
    }
  }

  lemma GrowsRefl(d: Db)
    ensures Grows(d, d)
  {
  }

  lemma GrowsTrans(d: Db, d': Db, d'': Db)
    requires Grows(d, d') && Grows(d', d'')
    ensures Grows(d, d'')
  {
    hide Dead, Spent;
  }

  lemma TickGood(d: Db, ms: nat)
    requires Rows(d) && Wins(d)
    ensures Good(d, d.(now := d.now + ms))
  {
  }

  lemma RevokeOneKeeps(store: Store, s: State, id: nat, x: Sid, fails: bool)
    requires Inv(store, s) && id in s.calls && s.calls[id].Revoking? && x in s.calls[id].todo
    ensures Inv(store, RevokeOne(s, id, x, fails)) && Grows(s.db, RevokeOne(s, id, x, fails).db)
  {
    hide Rows, Wins, Grows;
    var s' := RevokeOne(s, id, x, fails);
    GrowsRefl(s.db);
    KillGood(s.db, x);
    CallsStay(store, s, s'.db);
    assert CallOk(store, s.db, s.calls[id]) && CallOk(store, s'.db, s.calls[id]);
    assert CallOk(store, s'.db, s'.calls[id]);
    hide CallOk;
  }

  lemma NextKeeps(store: Store, s: State, id: nat)
    requires Inv(store, s) && id in s.calls
    ensures Inv(store, Apply(store, s, Next(id))) && Grows(s.db, Apply(store, s, Next(id)).db)
  {
    hide CallOk, Rows, Wins, Grows, Effect, Outcome;
    var c := s.calls[id];
    EffectIsGood(store, s.db, c);
    OutcomeIsOk(store, s.db, c);
    CallsStay(store, s, Effect(s.db, c));
  }

  lemma StepKeeps(store: Store, s: State, step: Step)
    requires Inv(store, s)
    ensures Inv(store, Apply(store, s, step)) && Grows(s.db, Apply(store, s, step).db)
  {
    var d' := Apply(store, s, step).db;
    GrowsRefl(s.db);
    match step
    case Tick(ms) => TickGood(s.db, ms); CallsStay(store, s, d'); hide CallOk, Rows, Wins, Grows;
    case Login(user) => LoginGood(s.db, user); CallsStay(store, s, d'); hide CallOk, Rows, Wins, Grows;
    case Logout(sid) => KillGood(s.db, sid); CallsStay(store, s, d'); hide CallOk, Rows, Wins, Grows;
    case Begin(id, call) =>
    case Next(id) => if id in s.calls { NextKeeps(store, s, id); } hide CallOk, Rows, Wins, Grows;
    case NextRevoke(id, x, fails) =>
      if id in s.calls && s.calls[id].Revoking? && x in s.calls[id].todo {
        RevokeOneKeeps(store, s, id, x, fails);
      }
      hide CallOk, Rows, Wins, Grows;
  }

  lemma {:induction false} RunKeeps(store: Store, steps: seq<Step>)
    ensures Inv(store, Run(store, steps))
  {
    if steps != [] {
      RunKeeps(store, steps[..|steps| - 1]);
      StepKeeps(store, Run(store, steps[..|steps| - 1]), steps[|steps| - 1]);
    }
  }

  lemma RunSnoc(store: Store, steps: seq<Step>, step: Step)
    ensures Run(store, steps + [step]) == Apply(store, Run(store, steps), step)
  {
    assert (steps + [step])[..|steps|] == steps;
  }

  lemma {:induction false} RunGrows(store: Store, a: seq<Step>, b: seq<Step>)
    ensures Grows(Run(store, a).db, Run(store, a + b).db)
  {
    if b == [] {
      assert a + b == a;
      GrowsRefl(Run(store, a).db);
    } else {
      var n := |b| - 1;
      hide *;
      RunGrows(store, a, b[..n]);
      assert a + b == (a + b[..n]) + [b[n]];
      RunSnoc(store, a + b[..n], b[n]);
      RunKeeps(store, a + b[..n]);
      StepKeeps(store, Run(store, a + b[..n]), b[n]);
      GrowsTrans(Run(store, a).db, Run(store, a + b[..n]).db, Run(store, a + b).db);
    }
  }

  // --- the theorems ---

  /** No token was accepted in two calls. */
  ghost predicate AcceptedOnce(calls: map<nat, Call>) {
    forall i, j ::
      i in calls && j in calls && calls[i].Resumed? && calls[j].Resumed? && calls[i].t == calls[j].t ==> i == j
  }

  lemma StepAcceptsOnce(store: Store, s: State, step: Step)
    requires Inv(store, s) && AcceptedOnce(s.calls)
    ensures AcceptedOnce(Apply(store, s, step).calls)
  {
    hide Rows, Wins, Effect, Kill, NewSession, Others, Remembers, Spent, CallOk;
    if step.Next? && step.id in s.calls && s.calls[step.id].Found? {
      var c := s.calls[step.id];
      forall j | j in s.calls && s.calls[j].Resumed? && s.calls[j].t == c.t
        ensures !Outcome(store, s.db, c).Resumed?
      {
        SpentIsLost(store, s, j, c);
      }
    }
  }

  lemma SpentIsLost(store: Store, s: State, j: nat, c: Call)
    requires Inv(store, s) && j in s.calls && s.calls[j].Resumed? && c.Found? && c.t == s.calls[j].t
    ensures !Outcome(store, s.db, c).Resumed?
  {
    assert CallOk(store, s.db, s.calls[j]);
  }

  lemma {:induction false} RunAcceptsOnce(store: Store, steps: seq<Step>)
    ensures AcceptedOnce(Run(store, steps).calls)
  {
    if steps != [] {
      RunAcceptsOnce(store, steps[..|steps| - 1]);
      RunKeeps(store, steps[..|steps| - 1]);
      StepAcceptsOnce(store, Run(store, steps[..|steps| - 1]), steps[|steps| - 1]);
    }
  }

  /**
   However the store calls of concurrent resumes interleave, a resume token is
   accepted at most once: no two calls that presented it both succeeded. Every accepted
   resume is a successful rotation, and no two rotations consumed the same token.
   */
  lemma ResumeTokenWinsOnce(store: Store, steps: seq<Step>)
    ensures
      var s := Run(store, steps);
      && (forall i, j ::
            (i in s.calls && j in s.calls && s.calls[i].Resumed? && s.calls[j].Resumed? && s.calls[i].t == s.calls[j].t)
            ==> i == j)
      && (forall i, j :: 0 <= i < j < |s.db.wins| ==> s.db.wins[i] != s.db.wins[j])
      && (forall id :: id in s.calls && s.calls[id].Resumed? ==> s.calls[id].t in s.db.wins)
  {
    RunKeeps(store, steps);
    RunAcceptsOnce(store, steps);
  }

  /** The call presented a token and finished without being accepted. */
  predicate Failed(c: Call) { c.Refused? || c.Replayed? || c.Unknown? }

  /**
   Any presentation of a minted token that is not the accepted one leaves its session
   revoked or expired, whatever the interleaving. With the SQL row, which keeps a
   single consumed token, the one exception is a presentation that finds no trace of
   the token; with the in-memory index there is no exception.
   */
  lemma SecondPresentationEndsSession(store: Store, steps: seq<Step>, id: nat)
    requires
      var s := Run(store, steps);
      id in s.calls && Failed(s.calls[id]) && s.calls[id].t.Minted?
    ensures
      var s := Run(store, steps);
      var t := s.calls[id].t;
      && t in s.db.owner
      && (Dead(s.db, s.db.owner[t]) || (store.Postgres? && s.calls[id] == Unknown(t)))
  {
    RunKeeps(store, steps);
    var s := Run(store, steps);
    assert CallOk(store, s.db, s.calls[id]);
  }

  /**
   The lookup that decides between "replayed" and "unknown" recognises a spent token
   always with the in-memory index, and with the SQL row exactly while it is the last
   token its session rotated away.
   */
  lemma SpentTokenIsRecognised(store: Store, steps: seq<Step>, id: nat)
    requires
      var s := Run(store, steps);
      id in s.calls && s.calls[id].Missed? && s.calls[id].t.Minted?
    ensures
      var s, s' := Run(store, steps), Run(store, steps + [Next(id)]);
      var t := s.calls[id].t;
      && t in s.db.owner && s.db.owner[t] in s.db.sessions
      && id in s'.calls
      && (s'.calls[id].Seen? <==> store.Memory? || s.db.sessions[s.db.owner[t]].prev == Some(t))
      && (s'.calls[id] == Unknown(t) <==> store.Postgres? && s.db.sessions[s.db.owner[t]].prev != Some(t))
  {
    RunKeeps(store, steps);
    var s := Run(store, steps);
    assert CallOk(store, s.db, s.calls[id]);
    assert (steps + [Next(id)])[..|steps|] == steps;
  }

  /**
   The first lookup of a presented token finds its session exactly when some valid session
   has that token, and finds that session.
   */
  lemma LookupFindsExactlyWhen(store: Store, steps: seq<Step>, id: nat)
    requires id in Run(store, steps).calls && Run(store, steps).calls[id].Presented?
    ensures
      var s, s' := Run(store, steps), Run(store, steps + [Next(id)]);
      var t := s.calls[id].t;
      && id in s'.calls && s'.db == s.db
      && (s'.calls[id].Found? <==>
            exists x :: x in s.db.sessions && s.db.sessions[x].resume == t && ValidAt(s.db.sessions[x], s.db.now))
      && (s'.calls[id].Found? ==>
            s'.calls[id].sid in s.db.sessions && s.db.sessions[s'.calls[id].sid].resume == t)
  {
    RunKeeps(store, steps);
    RunSnoc(store, steps, Next(id));
    hide Run, Wins;
    var s := Run(store, steps);
    var t := s.calls[id].t;
    if x :| x in s.db.sessions && s.db.sessions[x].resume == t && ValidAt(s.db.sessions[x], s.db.now) {
      assert s.db.owner[t] == x;
    }
  }

  /**
   A call that has found its session is accepted exactly when the session still has the
   token presented. The session then holds one never handed out before, remembers the
   one presented, and is otherwise as it was.
   */
  lemma AcceptedExactlyWhen(store: Store, steps: seq<Step>, id: nat)
    requires id in Run(store, steps).calls && Run(store, steps).calls[id].Found?
    ensures
      var s, s' := Run(store, steps), Run(store, steps + [Next(id)]);
      var t, sid := s.calls[id].t, s.calls[id].sid;
      && sid in s.db.sessions && id in s'.calls && sid in s'.db.sessions
      && (s'.calls[id] == Resumed(t, sid) <==> s.db.sessions[sid].resume == t)
      && (s'.calls[id].Resumed? ==>
            var fresh' := s'.db.sessions[sid].resume;
            && fresh' !in s.db.owner && fresh' in s'.db.owner && s'.db.owner[fresh'] == sid
            && s'.db.sessions == s.db.sessions[sid := s.db.sessions[sid].(resume := fresh', prev := Some(t))])
      && (!s'.calls[id].Resumed? ==> s'.db == s.db)
  {
    RunKeeps(store, steps);
    RunSnoc(store, steps, Next(id));
    var s := Run(store, steps);
    assert CallOk(store, s.db, s.calls[id]);
    hide Run, Wins;
    assert Minted(s.db.next) !in s.db.owner;
  }

  /** A bearer is let in exactly while the session is valid. */
  lemma BearerAcceptedExactlyWhen(store: Store, steps: seq<Step>, id: nat)
    requires id in Run(store, steps).calls && Run(store, steps).calls[id].Bearer?
    ensures
      var s, s' := Run(store, steps), Run(store, steps + [Next(id)]);
      var sid := s.calls[id].sid;
      && id in s'.calls && s'.db.sessions == s.db.sessions
      && (if sid in s.db.sessions && ValidAt(s.db.sessions[sid], s.db.now)
          then s'.calls[id] == LoggedIn(sid) || s'.calls[id] == Touching(sid, s.db.now + SESSION_TTL)
          else s'.calls[id] == Rejected(sid))
  {
    RunSnoc(store, steps, Next(id));
    hide Run;
  }

  /** A replayed token revokes its session, unless it was seen revoked already, and changes nothing else. */
  lemma ReplayRevokesExactly(store: Store, steps: seq<Step>, id: nat)
    requires
      var s := Run(store, steps);
      id in s.calls && (s.calls[id].Lost? || s.calls[id].Seen?)
    ensures
      var s, s' := Run(store, steps), Run(store, steps + [Next(id)]);
      var sid, already := s.calls[id].sid, s.calls[id].Seen? && s.calls[id].revoked;
      && sid in s.db.sessions && id in s'.calls && s'.calls[id] == Replayed(s.calls[id].t, sid)
      && s'.db.sessions == (if already then s.db.sessions
                            else s.db.sessions[sid := s.db.sessions[sid].(revokedAt := s.db.now)])
  {
    RunKeeps(store, steps);
    RunSnoc(store, steps, Next(id));
    var s := Run(store, steps);
    assert CallOk(store, s.db, s.calls[id]);
    hide Run, Wins, CallOk;
  }

  /** A session let in lasts at least until the time then written, unless it has ended meanwhile. */
  lemma TouchExtendsExactlyWhen(store: Store, steps: seq<Step>, id: nat)
    requires id in Run(store, steps).calls && Run(store, steps).calls[id].Touching?
    ensures
      var s, s' := Run(store, steps), Run(store, steps + [Next(id)]);
      var sid, expires := s.calls[id].sid, s.calls[id].expires;
      && id in s'.calls && s'.calls[id] == LoggedIn(sid) && sid in s.db.sessions
      && var row := s.db.sessions[sid];
         s'.db.sessions == s.db.sessions[sid := row.(expires :=
           if row.revokedAt == 0 && s.db.now < row.expires && row.expires < expires then expires else row.expires)]
  {
    RunKeeps(store, steps);
    RunSnoc(store, steps, Next(id));
    var s := Run(store, steps);
    assert CallOk(store, s.db, s.calls[id]);
    hide Run, Wins, CallOk;
  }

  /** A login opens one session, valid for one TTL, with a token never handed out before. */
  lemma LoginOpensOne(store: Store, steps: seq<Step>, user: User)
    ensures
      var d, d' := Run(store, steps).db, Run(store, steps + [Login(user)]).db;
      exists x :: x !in d.sessions && x in d'.sessions && Opened(d, d', x, user)
  {
    RunKeeps(store, steps);
    RunSnoc(store, steps, Login(user));
    var d, d' := Run(store, steps).db, Run(store, steps + [Login(user)]).db;
    hide Run, Wins;
    assert Opened(d, d', d.next, user);
  }

  predicate Opened(d: Db, d': Db, x: Sid, user: User) {
    && x in d'.sessions && d'.sessions == d.sessions[x := d'.sessions[x]]
    && d'.sessions[x].user == user && d'.sessions[x].resume !in d.owner
    && d'.sessions[x].revokedAt == 0 && d'.sessions[x].expires == d.now + SESSION_TTL
    && ValidAt(d'.sessions[x], d.now)
  }

  /** The call has been accepted, or can be without looking the session up again. */
  predicate PastLookup(c: Call, sid: Sid) {
    (c.Found? || c.Resumed? || c.Touching? || c.LoggedIn?) && c.sid == sid
  }

  predicate Succeeded(c: Call, sid: Sid) {
    (c.Resumed? || c.LoggedIn?) && c.sid == sid
  }

  /**
   Once a session is revoked or expired it stays so, and no Resume or Authenticate
   whose lookup comes later succeeds: a call that has succeeded in any continuation
   had already looked the session up before it ended.
   */
  lemma NothingSucceedsAfterTheEnd(store: Store, a: seq<Step>, b: seq<Step>, sid: Sid)
    requires Dead(Run(store, a).db, sid)
    ensures
      var s, s' := Run(store, a), Run(store, a + b);
      && Dead(s'.db, sid)
      && (forall id :: id in s'.calls && Succeeded(s'.calls[id], sid) ==>
            id in s.calls && PastLookup(s.calls[id], sid))
  {
    RunGrows(store, a, b);
    PastLookupIsOld(store, a, b, sid);
  }

  lemma {:induction false} PastLookupIsOld(store: Store, a: seq<Step>, b: seq<Step>, sid: Sid)
    requires Dead(Run(store, a).db, sid)
    ensures
      var s, s' := Run(store, a), Run(store, a + b);
      forall id :: id in s'.calls && PastLookup(s'.calls[id], sid) ==> id in s.calls && PastLookup(s.calls[id], sid)
  {
    if b == [] {
      assert a + b == a;
    } else {
      var n := |b| - 1;
      hide Apply, PastLookup, ValidAt;
      PastLookupIsOld(store, a, b[..n], sid);
      RunGrows(store, a, b[..n]);
      NoNewLookup(store, Run(store, a + b[..n]), b[n], sid);
      assert a + b == (a + b[..n]) + [b[n]];
      RunSnoc(store, a + b[..n], b[n]);
      hide Run, Grows;
    }
  }

  lemma NoNewLookup(store: Store, s: State, step: Step, sid: Sid)
    requires Dead(s.db, sid)
    ensures
      var s' := Apply(store, s, step);
      forall id :: id in s'.calls && PastLookup(s'.calls[id], sid) ==> id in s.calls && PastLookup(s.calls[id], sid)
  {
    if step.Next? && step.id in s.calls {
      hide Outcome, Effect, PastLookup;
      if PastLookup(Outcome(store, s.db, s.calls[step.id]), sid) {
        OutcomeLooksUp(store, s.db, s.calls[step.id], sid);
      }
    }
  }

  lemma OutcomeLooksUp(store: Store, d: Db, c: Call, sid: Sid)
    requires Dead(d, sid) && PastLookup(Outcome(store, d, c), sid)
    ensures PastLookup(c, sid)
  {
  }

  /**
   Over every run: a session expires at most one TTL after it was last used, and
   once it is revoked or lapsed no later step makes it valid again.
   */
  lemma SessionsLapseForGood(store: Store, a: seq<Step>, b: seq<Step>)
    ensures
      var d, d' := Run(store, a).db, Run(store, a + b).db;
      && (forall x :: x in d'.sessions ==> x in d'.lastAuth && d'.sessions[x].expires <= d'.lastAuth[x] + SESSION_TTL)
      && (forall x :: x in d.sessions && !ValidAt(d.sessions[x], d.now) ==>
            x in d'.sessions && !ValidAt(d'.sessions[x], d'.now))
  {
    RunKeeps(store, a + b);
    RunGrows(store, a, b);
    var d, d' := Run(store, a).db, Run(store, a + b).db;
    forall x | x in d.sessions && !ValidAt(d.sessions[x], d.now)
      ensures x in d'.sessions && !ValidAt(d'.sessions[x], d'.now)
    {
      assert Dead(d, x);
    }
  }

  // --- a changed password ---

  /** The account's sessions, of all that are there. */
  function SessionsOf(d: Db, user: User): set<Sid> { set x | x in d.sessions && d.sessions[x].user == user }

  /** Rows are never removed and never change hands. */
  lemma StepKeepsHands(store: Store, s: State, step: Step)
    requires Rows(s.db)
    ensures
      var d, d' := s.db, Apply(store, s, step).db;
      forall x :: x in d.sessions ==> x in d'.sessions && d'.sessions[x].user == d.sessions[x].user
  {
    hide Outcome, Others, ValidAt, Rows;
    match step
    case Login(user) => NextIsNew(s.db);
    case Next(id) =>
      if id in s.calls { EffectKeepsHands(s.db, s.calls[id]); }
      hide Effect;
    case _ => hide Effect, NewSession;
  }

  lemma NextIsNew(d: Db)
    requires Rows(d)
    ensures d.next !in d.sessions
  {
  }

  lemma EffectKeepsHands(d: Db, c: Call)
    ensures
      var d' := Effect(d, c);
      forall x :: x in d.sessions ==> x in d'.sessions && d'.sessions[x].user == d.sessions[x].user
  {
    hide ValidAt;
  }

  lemma {:induction false} RunKeepsHands(store: Store, a: seq<Step>, b: seq<Step>)
    ensures
      var d, d' := Run(store, a).db, Run(store, a + b).db;
      forall x :: x in d.sessions ==> x in d'.sessions && d'.sessions[x].user == d.sessions[x].user
  {
    if b == [] {
      assert a + b == a;
    } else {
      var n := |b| - 1;
      hide Apply, Rows;
      RunKeepsHands(store, a, b[..n]);
      assert a + b == (a + b[..n]) + [b[n]];
      RunSnoc(store, a + b[..n], b[n]);
      RunKeeps(store, a + b[..n]);
      StepKeepsHands(store, Run(store, a + b[..n]), b[n]);
    }
  }

  /** What the call that began as Listing(user, keep) has become: it is after `all` of at
      least those in `floor`, and has in hand only others of that account. */
  ghost predicate Clearing(c: Call, d: Db, user: User, keep: Option<Sid>, floor: set<Sid>) {
    match c
    case Listing(u, k) => u == user && k == keep
    case Revoking(k, all, todo, _) => k == keep && floor <= all && todo <= SessionsOf(d, user) && keep !in Wrapped(todo)
    case Cleared(k, all) => k == keep && floor <= all
    case NotCleared => true
    case _ => false
  }

  function Wrapped(xs: set<Sid>): set<Option<Sid>> { set x | x in xs :: Some(x) }

  lemma StepKeepsClearing(store: Store, s: State, step: Step, id: nat, user: User, keep: Option<Sid>, floor: set<Sid>)
    requires Rows(s.db) && id in s.calls && Clearing(s.calls[id], s.db, user, keep, floor)
    requires floor <= SessionsOf(s.db, user)
    ensures
      var s' := Apply(store, s, step);
      && id in s'.calls && Clearing(s'.calls[id], s'.db, user, keep, floor)
      && floor <= SessionsOf(s'.db, user)
  {
    hide Rows, Effect, Kill, NewSession, Spent, Remembers;
    StepKeepsHands(store, s, step);
  }

  lemma {:induction false} RunKeepsClearing(store: Store, a: seq<Step>, b: seq<Step>, id: nat)
    requires id in Run(store, a).calls && Run(store, a).calls[id].Listing?
    ensures
      var s, s' := Run(store, a), Run(store, a + b);
      var c := s.calls[id];
      var floor := SessionsOf(s.db, c.user);
      id in s'.calls && Clearing(s'.calls[id], s'.db, c.user, c.keep, floor) && floor <= SessionsOf(s'.db, c.user)
  {
    if b == [] {
      assert a + b == a;
    } else {
      var n := |b| - 1;
      hide *;
      RunKeepsClearing(store, a, b[..n], id);
      assert a + b == (a + b[..n]) + [b[n]];
      RunSnoc(store, a + b[..n], b[n]);
      RunKeeps(store, a + b[..n]);
      InvIsRows(store, Run(store, a + b[..n]));
      var c := Run(store, a).calls[id];
      StepKeepsClearing(store, Run(store, a + b[..n]), b[n], id, c.user, c.keep, SessionsOf(Run(store, a).db, c.user));
    }
  }

  lemma InvIsRows(store: Store, s: State)
    requires Inv(store, s)
    ensures Rows(s.db)
  {
  }

  /**
   A ChangePassword about to list sessions, in any run: once it has reported success, no
   session the account had is ever valid again, except the one it was told to keep,
   however its revocations interleaved with everything else.
   */
  lemma ChangedPasswordEndsOtherSessions(store: Store, a: seq<Step>, b: seq<Step>, c: seq<Step>, id: nat, x: Sid)
    requires id in Run(store, a).calls && Run(store, a).calls[id].Listing?
    requires id in Run(store, a + b).calls && Run(store, a + b).calls[id].Cleared?
    requires
      var s := Run(store, a);
      x in s.db.sessions && s.db.sessions[x].user == s.calls[id].user && Some(x) != s.calls[id].keep
    ensures
      var d := Run(store, a + b + c).db;
      x in d.sessions && !ValidAt(d.sessions[x], d.now)
  {
    RunKeepsClearing(store, a, b, id);
    RunKeeps(store, a + b);
    var s := Run(store, a + b);
    hide Run;
    assert CallOk(store, s.db, s.calls[id]);
    RunGrows(store, a + b, c);
  }

  /**
   And whatever such a call does, every session it changes is another one of that account,
   and is revoked.
   */
  lemma ChangedPasswordEndsNoOthers(store: Store, a: seq<Step>, b: seq<Step>, id: nat, step: Step, x: Sid)
    requires id in Run(store, a).calls && Run(store, a).calls[id].Listing?
    requires step == Next(id) || (step.NextRevoke? && step.id == id)
    requires x in Run(store, a + b).db.sessions
    ensures
      var c, d, d' := Run(store, a).calls[id], Run(store, a + b).db, Run(store, a + b + [step]).db;
      && d'.sessions.Keys == d.sessions.Keys
      && (d'.sessions[x] != d.sessions[x] ==>
            d.sessions[x].user == c.user && Some(x) != c.keep && d'.sessions[x].revokedAt != 0)
  {
    RunKeepsClearing(store, a, b, id);
    RunKeeps(store, a + b);
    InvIsRows(store, Run(store, a + b));
    RunSnoc(store, a + b, step);
    hide Run, Inv;
  }

  predicate HasFailed(c: Call) { c.NotCleared? || (c.Revoking? && c.failed) }

  lemma StepFails(store: Store, s: State, step: Step, id: nat)
    requires id in s.calls
    requires
      var c := s.calls[id];
      c.Listing? || c.Revoking? || c.Cleared? || HasFailed(c)
    ensures
      var s' := Apply(store, s, step);
      id in s'.calls && (HasFailed(s'.calls[id]) ==>
        HasFailed(s.calls[id]) || (step.NextRevoke? && step.id == id && step.fails))
  {
    hide Effect, Kill, NewSession, Others;
  }

  /** It reports failure only when one of its revocations failed. */
  lemma {:induction false} FailureWasReal(store: Store, a: seq<Step>, b: seq<Step>, id: nat)
    requires id in Run(store, a).calls && Run(store, a).calls[id].Listing?
    ensures
      var s := Run(store, a + b);
      && id in s.calls
      && (HasFailed(s.calls[id]) ==>
            exists i :: 0 <= i < |b| && b[i].NextRevoke? && b[i].id == id && b[i].fails)
  {
    if b == [] {
      assert a + b == a;
    } else {
      var n := |b| - 1;
      FailureWasReal(store, a, b[..n], id);
      RunKeepsClearing(store, a, b[..n], id);
      assert a + b == (a + b[..n]) + [b[n]];
      RunSnoc(store, a + b[..n], b[n]);
      var s := Run(store, a + b[..n]);
      StepFails(store, s, b[n], id);
      hide *;
      if HasFailed(s.calls[id]) {
        var i :| 0 <= i < n && b[..n][i].NextRevoke? && b[..n][i].id == id && b[..n][i].fails;
        assert b[i] == b[..n][i];
      }
    }
  }

  lemma {:induction false} FailureStays(store: Store, a: seq<Step>, b: seq<Step>, id: nat)
    requires id in Run(store, a).calls && HasFailed(Run(store, a).calls[id])
    ensures id in Run(store, a + b).calls && HasFailed(Run(store, a + b).calls[id])
  {
    if b == [] {
      assert a + b == a;
    } else {
      var n := |b| - 1;
      hide HasFailed;
      FailureStays(store, a, b[..n], id);
      assert a + b == (a + b[..n]) + [b[n]];
      RunSnoc(store, a + b[..n], b[n]);
      StepStaysFailed(store, Run(store, a + b[..n]), b[n], id);
      hide Run, Apply;
    }
  }

  lemma StepStaysFailed(store: Store, s: State, step: Step, id: nat)
    requires id in s.calls && HasFailed(s.calls[id])
    ensures id in Apply(store, s, step).calls && HasFailed(Apply(store, s, step).calls[id])
  {
    hide Effect, Kill, NewSession, Others;
  }

  /** A revocation that fails leaves every session as it is, and the call never reports success. */
  lemma FailureIsReported(store: Store, a: seq<Step>, id: nat, x: Sid, b: seq<Step>)
    requires
      var s := Run(store, a);
      id in s.calls && s.calls[id].Revoking? && x in s.calls[id].todo
    ensures
      var s, s' := Run(store, a), Run(store, a + [NextRevoke(id, x, true)] + b);
      && Run(store, a + [NextRevoke(id, x, true)]).db == s.db
      && id in s'.calls && !s'.calls[id].Cleared?
  {
    RunSnoc(store, a, NextRevoke(id, x, true));
    FailureStays(store, a + [NextRevoke(id, x, true)], b, id);
    hide Run;
  }

  lemma {:induction false} RevocationsCanFinish(store: Store, a: seq<Step>, id: nat) returns (b: seq<Step>)
    requires
      var s := Run(store, a);
      id in s.calls && s.calls[id].Revoking? && !s.calls[id].failed
    ensures id in Run(store, a + b).calls && Run(store, a + b).calls[id].Cleared?
    decreases Run(store, a).calls[id].todo
  {
    var s := Run(store, a);
    hide Run, Effect, Kill;
    if s.calls[id].todo == {} {
      b := [Next(id)];
      RunSnoc(store, a, Next(id));
    } else {
      var x :| x in s.calls[id].todo;
      RunSnoc(store, a, NextRevoke(id, x, false));
      var rest := RevocationsCanFinish(store, a + [NextRevoke(id, x, false)], id);
      b := [NextRevoke(id, x, false)] + rest;
      assert a + b == (a + [NextRevoke(id, x, false)]) + rest;
    }
  }

  /** After any run a change of any account's password can be begun and reach success. */
  lemma PasswordChangeCanFinish(store: Store, a: seq<Step>, id: nat, user: User, keep: Option<Sid>)
    returns (b: seq<Step>)
    requires id !in Run(store, a).calls
    ensures Run(store, a + [Begin(id, Listing(user, keep))]).calls[id] == Listing(user, keep)
    ensures
      var s := Run(store, a + [Begin(id, Listing(user, keep))] + b);
      id in s.calls && s.calls[id].Cleared?
  {
    var begun := a + [Begin(id, Listing(user, keep))];
    RunSnoc(store, a, Begin(id, Listing(user, keep)));
    RunSnoc(store, begun, Next(id));
    hide Run, Effect, Others;
    var rest := RevocationsCanFinish(store, begun + [Next(id)], id);
    b := [Next(id)] + rest;
    assert begun + b == (begun + [Next(id)]) + rest;
  }

  // --- the SQL row, concretely ---

  function Attempt(id: nat, t: Token): seq<Step> { [Begin(id, Presented(t)), Next(id), Next(id)] }

  lemma RunAttempt(store: Store, steps: seq<Step>, id: nat, t: Token)
    requires
      var s := Run(store, steps);
      id !in s.calls && (t.Junk? || t in s.db.owner)
    ensures
      var s, s' := Run(store, steps), Run(store, steps + Attempt(id, t));
      var c := Outcome(store, s.db, Presented(t));
      s'.db == Effect(s.db, c) && s'.calls == s.calls[id := Outcome(store, s.db, c)]
  {
    var s := Run(store, steps);
    var s1 := s.(calls := s.calls[id := Presented(t)]);
    var c := Outcome(store, s.db, Presented(t));
    var s2 := s.(calls := s.calls[id := c]);
    var full := steps + Attempt(id, t);
    assert full[..|steps| + 2] == steps + [Begin(id, Presented(t)), Next(id)];
    assert full[..|steps| + 2][..|steps| + 1] == steps + [Begin(id, Presented(t))];
    assert full[..|steps| + 2][..|steps| + 1][..|steps|] == steps;
    assert Run(store, full[..|steps| + 2][..|steps| + 1]) == s1;
    assert s1.calls[id := c] == s2.calls;
    assert Run(store, full[..|steps| + 2]) == s2;
    assert s2.calls[id := Outcome(store, s.db, c)] == s.calls[id := Outcome(store, s.db, c)];
  }

  /**
   With the SQL row, a token consumed two rotations ago is not recognised: it is
   refused, but the session it belonged to stays live.
   */
  lemma OldTokenLeavesSessionLive()
    ensures
      var s := Run(Postgres, OldTokenRun());
      && 2 in s.calls && s.calls[2] == Unknown(Minted(0))
      && Minted(0) in s.db.wins
      && 0 in s.db.sessions && ValidAt(s.db.sessions[0], s.db.now)
  {
    var a := [Login(0)];
    var b := a + Attempt(0, Minted(0));
    var c := b + Attempt(1, Minted(1));
    assert a[..0] == [];
    var d0 := NewSession(Init().db, 0);
    assert Run(Postgres, a) == State(d0, map[]);
    RunAttempt(Postgres, a, 0, Minted(0));
    var d1 := Rotate(d0, 0);
    assert Run(Postgres, b).db == d1;
    RunAttempt(Postgres, b, 1, Minted(1));
    var d2 := Rotate(d1, 0);
    assert Run(Postgres, c).db == d2;
    assert d2.wins[0] == Minted(0);
    RunAttempt(Postgres, c, 2, Minted(0));
  }

  /** Log in; resume with the first token, then with its successor; then present the
      first token again. */
  function OldTokenRun(): seq<Step> {
    [Login(0)] + Attempt(0, Minted(0)) + Attempt(1, Minted(1)) + Attempt(2, Minted(0))
  }
}
