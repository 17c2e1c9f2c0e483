/**
 Where an account's paid time comes from and goes, over every run of the billing service.
 A callback, a checkout and a cancellation each read the subscription in one store call and
 write it in another; any other steps may come between the two.
 */
module Periods {
  import opened Billing
  import opened Wrappers

  /** A call between its read and its write: whose row it read, the end it saw there, and
      what it will write. */
  datatype Held =
    | Notice(ref: Ref, status: PaymentStatus, user: User, at: int, seen: int, sub: Option<Subscription>)
    | Reset(user: User, seen: int, provider: string, started: int)
    | Rewrite(user: User, row: Subscription)

  datatype State = State(db: Db, held: map<nat, Held>)

  datatype Move =
    | Whole(step: Step)                                                    // without interruption
    | BeginCallback(id: nat, ref: Ref, status: PaymentStatus, paidAt: int) // a callback reads
    | BeginCheckout(id: nat, u: User, provider: string, ref: Ref, amount: int, ago: nat)
    | BeginCancel(id: nat, u: User)
    | Finish(id: nat)                                                      // the call writes

  function ReadNotice(d: Db, ref: Ref, status: PaymentStatus, paidAt: int): Held
    requires ref in d.payments
  {
    var p, at := d.payments[ref], PaidAt(d, paidAt);
    Notice(ref, status, p.user, at, EndOf(d, p.user),
           if status == Succeeded then Some(AfterPayment(SubOf(d, p.user), p, at)) else None)
  }

  /** What a call writes, over the row as it is by then. */
  function Written(d: Db, h: Held): Db {
    match h
    case Notice(ref, status, user, at, seen, sub) =>
      if ref !in d.payments || !CanTransitionTo(d.payments[ref].status, status) then d
      else
        var d' := d.(payments := d.payments[ref := d.payments[ref].(status := status)]);
        if sub.None? then d' else d'.(subs := d.subs[user := sub.value])
    case Reset(user, seen, provider, started) =>
      d.(subs := d.subs[user := Subscription(Premium, Incomplete, 0, provider, started, started, false)])
    case Rewrite(user, row) => d.(subs := d.subs[user := row])
  }

  /** A checkout whose payment has its reference; it took its time `ago` before that. */
  function CheckoutBegun(s: State, id: nat, u: User, provider: string, ref: Ref, amount: int, ago: nat): State {
    var d := s.db.(payments := s.db.payments[ref := Payment(u, Premium, provider, amount, Pending)]);
    var started := s.db.now - ago;
    if Entitled(SubOf(s.db, u), started) then s.(db := d)
    else State(d, s.held[id := Reset(u, EndOf(s.db, u), provider, started)])
  }

  function Moved(s: State, m: Move): State {
    match m
    case Whole(step) => s.(db := Billing.Apply(s.db, step))
    case BeginCallback(id, ref, status, paidAt) =>
      if id in s.held || ref !in s.db.payments then s
      else s.(held := s.held[id := ReadNotice(s.db, ref, status, paidAt)])
    case BeginCheckout(id, u, provider, ref, amount, ago) =>
      if id in s.held || ref in s.db.payments then s else CheckoutBegun(s, id, u, provider, ref, amount, ago)
    case BeginCancel(id, u) =>
      if id in s.held || u !in s.db.subs then s
      else s.(held := s.held[id := Rewrite(u, s.db.subs[u].(cancelAtPeriodEnd := true, updatedAt := s.db.now))])
    case Finish(id) =>
      if id !in s.held then s else State(Written(s.db, s.held[id]), s.held - {id})
  }

  function After(s: State, moves: seq<Move>): State {
    if moves == [] then s else Moved(After(s, moves[..|moves| - 1]), moves[|moves| - 1])
  }

  function Start(): State { State(Db(1, map[], map[]), map[]) }

  function BeginOf(id: nat, step: Step): Option<Move> {
    match step
    case Callback(ref, status, paidAt) => Some(BeginCallback(id, ref, status, paidAt))
    case Checkout(u, provider, ref, amount) => Some(BeginCheckout(id, u, provider, ref, amount, 0))
    case Cancel(u) => Some(BeginCancel(id, u))
    case _ => None
  }

  /** An uninterrupted call is its two halves one after the other. */
  lemma WholeIsBothHalves(s: State, id: nat, step: Step)
    requires id !in s.held && BeginOf(id, step).Some?
    ensures Moved(Moved(s, BeginOf(id, step).value), Finish(id)) == Moved(s, Whole(step))
  {
    var s1 := Moved(s, BeginOf(id, step).value);
    assert s1.held - {id} == s.held;
    if step.Checkout? && Entitled(SubOf(s.db, step.u), s.db.now) {
      assert s.db.subs[step.u := s.db.subs[step.u]] == s.db.subs;
    }
  }

  // --- what each move does to one account's end ---

  function Max(a: int, b: int): int { if a < b then b else a }

  function Min(a: int, b: int): int { if a < b then a else b }

  /** The move settles a payment of `u` for the first time. */
  predicate Grants(s: State, m: Move, u: User) {
    match m
    case Whole(step) => IsGrant(s.db, step, u)
    case Finish(id) =>
      && id in s.held && s.held[id].Notice? && s.held[id].user == u && s.held[id].sub.Some?
      && s.held[id].ref in s.db.payments
      && CanTransitionTo(s.db.payments[s.held[id].ref].status, s.held[id].status)
    case _ => false
  }

  /** The instant a granted period is counted from. */
  function From(s: State, m: Move, u: User): int
    requires Grants(s, m, u)
  {
    match m
    case Whole(step) => Max(PaidAt(s.db, step.paidAt), EndOf(s.db, u))
    case Finish(id) => s.held[id].sub.value.periodEnd - PERIOD
  }

  predicate Resets(s: State, m: Move, u: User) {
    && m.Whole? && m.step.Checkout? && m.step.u == u
    && m.step.ref !in s.db.payments && !Entitled(SubOf(s.db, u), s.db.now)
  }

  /** The end of `u` that a call, about to write all of its row, had read. */
  function Stale(s: State, m: Move, u: User): Option<int> {
    if m.Finish? && m.id in s.held && !s.held[m.id].Notice? && s.held[m.id].user == u then Some(SeenEnd(s.held[m.id]))
    else None
  }

  function SeenEnd(h: Held): int { if h.Rewrite? then h.row.periodEnd else h.seen }

  /** Time nobody paid for: the grant starts after the current end. */
  function Gap(s: State, m: Move, u: User): int {
    if Grants(s, m, u) then Max(0, From(s, m, u) - EndOf(s.db, u)) else 0
  }

  /** An end that a cancellation writes back although it is no longer the account's. */
  function Restored(s: State, m: Move, u: User): int {
    var seen := Stale(s, m, u);
    if seen.Some? && s.held[m.id].Rewrite? then Max(0, seen.value - EndOf(s.db, u)) else 0
  }

  /** The end that a checkout read, or finds, and sets to 0. */
  function Forgotten(s: State, m: Move, u: User): int {
    var seen := Stale(s, m, u);
    if Resets(s, m, u) then EndOf(s.db, u)
    else if seen.Some? && s.held[m.id].Reset? then Min(seen.value, EndOf(s.db, u))
    else 0
  }

  /** Paid time that a write takes back because it was not there when its call read. */
  function Loss(s: State, m: Move, u: User): int {
    var seen := Stale(s, m, u);
    if Grants(s, m, u) then Max(0, EndOf(s.db, u) - From(s, m, u))
    else if seen.Some? then Max(0, EndOf(s.db, u) - seen.value)
    else 0
  }

  lemma MoveMovesEnd(s: State, m: Move, u: User)
    ensures EndOf(Moved(s, m).db, u) ==
      EndOf(s.db, u) + (if Grants(s, m, u) then PERIOD else 0)
      + Gap(s, m, u) + Restored(s, m, u) - Forgotten(s, m, u) - Loss(s, m, u)
  {
  }

  // --- sums over a run ---

  function GrantsTo(s: State, moves: seq<Move>, u: User): nat {
    if moves == [] then 0
    else
      var n := |moves| - 1;
      GrantsTo(s, moves[..n], u) + if Grants(After(s, moves[..n]), moves[n], u) then 1 else 0
  }

  /** Gaps and restored ends. */
  function Added(s: State, moves: seq<Move>, u: User): int {
    if moves == [] then 0
    else
      var n := |moves| - 1;
      var before := After(s, moves[..n]);
      Added(s, moves[..n], u) + Gap(before, moves[n], u) + Restored(before, moves[n], u)
  }

  /** Forgotten ends and losses. */
  function Dropped(s: State, moves: seq<Move>, u: User): int {
    if moves == [] then 0
    else
      var n := |moves| - 1;
      var before := After(s, moves[..n]);
      Dropped(s, moves[..n], u) + Forgotten(before, moves[n], u) + Loss(before, moves[n], u)
  }

  /**
   The law of paid time, from any state over any run: the period end moves by exactly one
   period for every payment settled, plus the gaps before late payments and the ends that
   cancellations write back, minus the ends that checkouts forget and the time that
   writes take back.
   */
  lemma {:induction false} PaidTimeIsAccountedFor(s: State, moves: seq<Move>, u: User)
    ensures EndOf(After(s, moves).db, u) ==
      EndOf(s.db, u) + GrantsTo(s, moves, u) * PERIOD + Added(s, moves, u) - Dropped(s, moves, u)
  {
    hide Moved, Billing.EndOf, Gap, Restored, Forgotten, Loss, Grants;
    if moves != [] {
      var n := |moves| - 1;
      PaidTimeIsAccountedFor(s, moves[..n], u);
      MoveMovesEnd(After(s, moves[..n]), moves[n], u);
      var k := GrantsTo(s, moves[..n], u);
      assert (k + 1) * PERIOD == k * PERIOD + PERIOD;
    }
  }

  // --- what every run keeps ---

  /** An end ahead belongs to a subscription that grants access, and access has an end. */
  predicate RowFit(row: Subscription, now: int) {
    && row.periodEnd >= 0 && (Live(row) ==> row.periodEnd > 0)
    && (row.periodEnd > now ==> ActiveAt(row, now))
  }

  predicate HeldFit(h: Held, now: int) {
    match h
    case Notice(ref, status, user, at, seen, sub) =>
      seen >= 0 && (sub.Some? ==> RowFit(sub.value, now) && sub.value.periodEnd == Max(at, seen) + PERIOD)
    case Reset(user, seen, provider, started) => 0 <= seen <= now
    case Rewrite(user, row) => RowFit(row, now)
  }

  ghost predicate Fit(s: State) {
    && s.db.now > 0
    && (forall u :: u in s.db.subs ==> RowFit(s.db.subs[u], s.db.now))
    && (forall r :: r in s.db.payments ==> s.db.payments[r].plan == Premium)
    && (forall id :: id in s.held ==> HeldFit(s.held[id], s.db.now))
  }

  lemma TickKeepsFit(s: State, ms: nat)
    requires Fit(s)
    ensures Fit(Moved(s, Whole(Tick(ms))))
  {
  }

  lemma WholeKeepsFit(s: State, step: Step)
    requires Fit(s) && !step.Tick?
    ensures Fit(Moved(s, Whole(step)))
  {
    hide HeldFit;
  }

  lemma BeginKeepsFit(s: State, m: Move)
    requires Fit(s) && !m.Whole? && !m.Finish?
    ensures Fit(Moved(s, m))
  {
  }

  lemma FinishKeepsFit(s: State, id: nat)
    requires Fit(s)
    ensures Fit(Moved(s, Finish(id)))
  {
    if id in s.held {
      assert HeldFit(s.held[id], s.db.now);
    }
  }

  lemma {:induction false} RunIsFit(moves: seq<Move>)
    ensures Fit(After(Start(), moves))
  {
    if moves != [] {
      var s, m := After(Start(), moves[..|moves| - 1]), moves[|moves| - 1];
      RunIsFit(moves[..|moves| - 1]);
      hide Fit, Moved;
      match m
      case Whole(step) => if step.Tick? { TickKeepsFit(s, step.ms); } else { WholeKeepsFit(s, step); }
      case Finish(id) => FinishKeepsFit(s, id);
      case _ => BeginKeepsFit(s, m);
    }
  }

  lemma FitIsEntitled(s: State, u: User)
    requires Fit(s)
    ensures Entitled(SubOf(s.db, u), s.db.now) <==> EndOf(s.db, u) > s.db.now
    ensures EndOf(s.db, u) >= 0
  {
    if u in s.db.subs {
      assert RowFit(s.db.subs[u], s.db.now);
    }
  }

  // --- whose payment it is ---

  /** The payment a checkout opens under a reference, unless the move is refused. */
  function Opening(s: State, m: Move, ref: Ref): Option<Payment> {
    match m
    case Whole(step) =>
      if step.Checkout? && step.ref == ref then Some(Payment(step.u, Premium, step.provider, step.amount, Pending))
      else None
    case BeginCheckout(id, u, provider, r, amount, _) =>
      if r == ref && id !in s.held then Some(Payment(u, Premium, provider, amount, Pending)) else None
    case _ => None
  }

  /** The payment the first checkout to use the reference opened. */
  function Opened(moves: seq<Move>, ref: Ref): Option<Payment> {
    if moves == [] then None
    else
      var n := |moves| - 1;
      var before := Opened(moves[..n], ref);
      if before.Some? then before else Opening(After(Start(), moves[..n]), moves[n], ref)
  }

  /** The row is as it was opened, but for its status; a call in hand knows whose it is. */
  ghost predicate Termed(s: State, ref: Ref, terms: Option<Payment>) {
    && (ref in s.db.payments <==> terms.Some?)
    && (terms.Some? ==> s.db.payments[ref] == terms.value.(status := s.db.payments[ref].status))
    && forall id :: id in s.held && s.held[id].Notice? && s.held[id].ref == ref ==>
         terms.Some? && s.held[id].user == terms.value.user
  }

  lemma MoveKeepsTerms(s: State, m: Move, ref: Ref, terms: Option<Payment>)
    requires Termed(s, ref, terms)
    ensures Termed(Moved(s, m), ref, if terms.Some? then terms else Opening(s, m, ref))
  {
    match m
    case Whole(step) => hide Ensured, AfterPayment, Swept;
    case BeginCallback(id, r, status, paidAt) => hide AfterPayment;
    case BeginCheckout(id, u, provider, r, amount, ago) => hide Entitled;
    case BeginCancel(id, u) =>
    case Finish(id) =>
  }

  lemma {:induction false} RunKeepsTerms(moves: seq<Move>, ref: Ref)
    ensures Termed(After(Start(), moves), ref, Opened(moves, ref))
  {
    if moves != [] {
      var n := |moves| - 1;
      RunKeepsTerms(moves[..n], ref);
      MoveKeepsTerms(After(Start(), moves[..n]), moves[n], ref, Opened(moves[..n], ref));
      hide Moved, Termed;
    }
  }

  /** The reference whose callback the move settles. */
  function RefOf(s: State, m: Move): Ref
    requires exists u :: Grants(s, m, u)
  {
    if m.Whole? then m.step.ref else s.held[m.id].ref
  }

  /**
   In every run, interrupted calls and all, a payment keeps the user, provider and amount
   of the first checkout that used its reference, and a period is only ever granted to
   the user who checked out.
   */
  lemma PeriodsGoToTheirPayers(moves: seq<Move>, m: Move, ref: Ref, u: User)
    ensures
      var s := After(Start(), moves);
      && (ref in s.db.payments <==> Opened(moves, ref).Some?)
      && (ref in s.db.payments ==>
            s.db.payments[ref] == Opened(moves, ref).value.(status := s.db.payments[ref].status))
      && (Grants(s, m, u) && RefOf(s, m) == ref ==> Opened(moves, ref).Some? && Opened(moves, ref).value.user == u)
  {
    RunKeepsTerms(moves, ref);
    hide After, Opened, Moved;
  }

  // --- calls that are not interrupted ---

  ghost predicate AllWhole(moves: seq<Move>) { forall i :: 0 <= i < |moves| ==> moves[i].Whole? }

  /** Uninterrupted calls take nothing back and write no older end: only forgetting can cost. */
  lemma WholeCallsTakeNothingBack(s: State, moves: seq<Move>, u: User)
    requires AllWhole(moves)
    ensures forall i :: 0 <= i < |moves| ==>
      Loss(After(s, moves[..i]), moves[i], u) == 0 && Restored(After(s, moves[..i]), moves[i], u) == 0
  {
    hide After;
  }

  /** No checkout finds an end to forget. */
  ghost predicate NothingForgotten(s: State, moves: seq<Move>, u: User) {
    forall i :: 0 <= i < |moves| ==> Forgotten(After(s, moves[..i]), moves[i], u) == 0
  }

  /** A payment of `u` that settles no later than the end it finds; true of other moves. */
  predicate InTime(s: State, m: Move, u: User) {
    m.Whole? && Grants(s, m, u) ==> PaidAt(s.db, m.step.paidAt) <= EndOf(s.db, u)
  }

  ghost predicate AllInTime(s: State, moves: seq<Move>, u: User) {
    forall i :: 0 <= i < |moves| ==> InTime(After(s, moves[..i]), moves[i], u)
  }

  lemma WholeMoveAdds(s: State, m: Move, u: User)
    requires m.Whole? && Forgotten(s, m, u) == 0
    ensures
      var end, end' := EndOf(s.db, u), EndOf(Moved(s, m).db, u);
      var bought := if Grants(s, m, u) then PERIOD else 0;
      end' >= end + bought && (end' == end + bought <==> InTime(s, m, u))
  {
    MoveMovesEnd(s, m, u);
  }

  lemma PrefixFacts(s: State, moves: seq<Move>, u: User)
    requires moves != []
    ensures
      var n := |moves| - 1;
      && (AllWhole(moves) ==> AllWhole(moves[..n]))
      && (NothingForgotten(s, moves, u) ==>
            NothingForgotten(s, moves[..n], u) && Forgotten(After(s, moves[..n]), moves[n], u) == 0)
      && (AllInTime(s, moves, u) <==> AllInTime(s, moves[..n], u) && InTime(After(s, moves[..n]), moves[n], u))
  {
    hide After, Forgotten, InTime;
    var n := |moves| - 1;
    forall i | 0 <= i < n ensures moves[..n][..i] == moves[..i] {}
  }

  /**
   From any state, over any run of uninterrupted calls in which no checkout finds an end to
   forget: k settled payments add at least k periods, and exactly k if and only if each
   settles no later than the end it finds.
   */
  lemma {:induction false} PaymentsAddPeriods(s: State, moves: seq<Move>, u: User)
    requires AllWhole(moves) && NothingForgotten(s, moves, u)
    ensures
      var end, end', k := EndOf(s.db, u), EndOf(After(s, moves).db, u), GrantsTo(s, moves, u);
      end' >= end + k * PERIOD && (end' == end + k * PERIOD <==> AllInTime(s, moves, u))
  {
    hide *;
    if moves == [] {
      NothingYet(s, u);
    } else {
      var n := |moves| - 1;
      PrefixFacts(s, moves, u);
      PaymentsAddPeriods(s, moves[..n], u);
      assert moves[n].Whole? by { LastIsWhole(moves); }
      WholeMoveAdds(After(s, moves[..n]), moves[n], u);
      assert moves == moves[..n] + [moves[n]];
      Snoc(s, moves[..n], moves[n], u);
      OneMore(GrantsTo(s, moves[..n], u));
    }
  }

  lemma NothingYet(s: State, u: User)
    ensures GrantsTo(s, [], u) * PERIOD == 0 && After(s, []) == s && AllInTime(s, [], u)
  {
  }

  lemma LastIsWhole(moves: seq<Move>)
    requires moves != [] && AllWhole(moves)
    ensures moves[|moves| - 1].Whole?
  {
  }

  lemma OneMore(k: nat)
    ensures (k + 1) * PERIOD == k * PERIOD + PERIOD
  {
  }

  /** The end last forgotten in the run, until a payment settles. */
  function LastForgotten(moves: seq<Move>, u: User): int {
    if moves == [] then 0
    else
      var n := |moves| - 1;
      var before := After(Start(), moves[..n]);
      if Grants(before, moves[n], u) then 0
      else if Forgotten(before, moves[n], u) > 0 then Forgotten(before, moves[n], u)
      else LastForgotten(moves[..n], u)
  }

  /** What the account has been paid up to, whether or not a checkout has forgotten it. */
  function Credit(moves: seq<Move>, u: User): int {
    var end := EndOf(After(Start(), moves).db, u);
    if end > 0 then end else LastForgotten(moves, u)
  }

  /** A notice of a payment older than the end that was forgotten before it. */
  predicate ToldTooLate(moves: seq<Move>, m: Move, u: User) {
    var s := After(Start(), moves);
    && m.Whole? && Grants(s, m, u)
    && EndOf(s.db, u) == 0 && Max(0, PaidAt(s.db, m.step.paidAt)) < LastForgotten(moves, u)
  }

  lemma Snoc(s: State, moves: seq<Move>, m: Move, u: User)
    ensures After(s, moves + [m]) == Moved(After(s, moves), m)
    ensures GrantsTo(s, moves + [m], u) == GrantsTo(s, moves, u) + if Grants(After(s, moves), m, u) then 1 else 0
  {
    assert (moves + [m])[..|moves|] == moves;
  }

  lemma LastForgottenSnoc(moves: seq<Move>, m: Move, u: User)
    ensures
      var s := After(Start(), moves);
      LastForgotten(moves + [m], u) ==
        if Grants(s, m, u) then 0 else if Forgotten(s, m, u) > 0 then Forgotten(s, m, u) else LastForgotten(moves, u)
  {
    assert (moves + [m])[..|moves|] == moves;
  }

  lemma ForgettingIsPast(s: State, m: Move, u: User)
    requires Fit(s)
    ensures 0 <= Forgotten(s, m, u) <= s.db.now && s.db.now <= Moved(s, m).db.now
  {
    FitIsEntitled(s, u);
    if m.Finish? && m.id in s.held {
      assert HeldFit(s.held[m.id], s.db.now);
    }
  }

  /** Every end that is forgotten has passed. */
  lemma {:induction false} ForgottenIsPast(moves: seq<Move>, u: User)
    ensures 0 <= LastForgotten(moves, u) <= After(Start(), moves).db.now
  {
    if moves != [] {
      var n := |moves| - 1;
      hide Fit, Forgotten, Grants, Moved;
      ForgottenIsPast(moves[..n], u);
      RunIsFit(moves[..n]);
      ForgettingIsPast(After(Start(), moves[..n]), moves[n], u);
    }
  }

  /**
   In every run, interrupted calls and all, a payment that settles without interruption is
   worth less than a period to the account if and only if it is told too late: a checkout
   has forgotten an end, nothing has settled since, and the payment is older than that
   end. No other uninterrupted step changes what the account has been paid up to.
   */
  lemma WorthAPeriodUnlessToldTooLate(moves: seq<Move>, m: Move, u: User)
    requires m.Whole?
    ensures
      var s := After(Start(), moves);
      var before, after := Credit(moves, u), Credit(moves + [m], u);
      if Grants(s, m, u) then after < before + PERIOD <==> ToldTooLate(moves, m, u) else after == before
  {
    var s := After(Start(), moves);
    RunIsFit(moves);
    FitIsEntitled(s, u);
    ForgottenIsPast(moves, u);
    Snoc(Start(), moves, m, u);
    LastForgottenSnoc(moves, m, u);
    MoveMovesEnd(s, m, u);
    hide After, LastForgotten, Moved, Fit;
  }

  ghost predicate NoneToldTooLate(a: seq<Move>, b: seq<Move>, u: User) {
    forall i :: 0 <= i < |b| ==> !ToldTooLate(a + b[..i], b[i], u)
  }

  /** So k payments, none of them told too late, are worth at least k periods. */
  lemma {:induction false} PaymentsAreWorthPeriods(a: seq<Move>, b: seq<Move>, u: User)
    requires AllWhole(b) && NoneToldTooLate(a, b, u)
    ensures Credit(a + b, u) >= Credit(a, u) + GrantsTo(After(Start(), a), b, u) * PERIOD
  {
    hide *;
    if b == [] {
      assert a + b == a;
      NothingYet(After(Start(), a), u);
    } else {
      var n := |b| - 1;
      NoneTooLatePrefix(a, b, u);
      PaymentsAreWorthPeriods(a, b[..n], u);
      assert b[n].Whole? by { LastIsWhole(b); }
      WorthAPeriodUnlessToldTooLate(a + b[..n], b[n], u);
      assert a + b == (a + b[..n]) + [b[n]] && b == b[..n] + [b[n]];
      Joined(a, b[..n]);
      Snoc(After(Start(), a), b[..n], b[n], u);
      OneMore(GrantsTo(After(Start(), a), b[..n], u));
    }
  }

  lemma NoneTooLatePrefix(a: seq<Move>, b: seq<Move>, u: User)
    requires b != [] && AllWhole(b) && NoneToldTooLate(a, b, u)
    ensures
      var n := |b| - 1;
      AllWhole(b[..n]) && NoneToldTooLate(a, b[..n], u) && !ToldTooLate(a + b[..n], b[n], u)
  {
    hide ToldTooLate;
    var n := |b| - 1;
    forall i | 0 <= i < n ensures b[..n][..i] == b[..i] {}
  }

  lemma {:induction false} Joined(a: seq<Move>, b: seq<Move>)
    ensures After(Start(), a + b) == After(After(Start(), a), b)
  {
    if b == [] {
      assert a + b == a;
    } else {
      Joined(a, b[..|b| - 1]);
      assert (a + b)[..|a + b| - 1] == a + b[..|b| - 1];
    }
  }

  /** Callbacks that carry no time of their own count from the server's clock. */
  ghost predicate Clocked(moves: seq<Move>) {
    forall i :: 0 <= i < |moves| ==> moves[i].Whole? && (moves[i].step.Callback? ==> moves[i].step.paidAt == 0)
  }

  lemma ClockedIsNeverTooLate(a: seq<Move>, b: seq<Move>, u: User)
    requires Clocked(b)
    ensures AllWhole(b) && NoneToldTooLate(a, b, u)
  {
    hide Grants, LastForgotten, After;
    forall i | 0 <= i < |b| ensures !ToldTooLate(a + b[..i], b[i], u) {
      ForgottenIsPast(a + b[..i], u);
      ClockedPaysNow(After(Start(), a + b[..i]), b[i], u);
    }
  }

  lemma ClockedPaysNow(s: State, m: Move, u: User)
    requires m.Whole? && (m.step.Callback? ==> m.step.paidAt == 0)
    ensures Grants(s, m, u) ==> PaidAt(s.db, m.step.paidAt) == s.db.now
  {
  }

  /**
   After any run, and then over any run of uninterrupted calls whose callbacks count from
   the server's clock: k settled payments move the account's end by at least k periods, or
   it was forgotten when all of that time had passed.
   */
  lemma ClockedCallbacksLoseNothing(a: seq<Move>, b: seq<Move>, u: User)
    requires Clocked(b)
    ensures
      var s, s' := After(Start(), a), After(Start(), a + b);
      var due := EndOf(s.db, u) + GrantsTo(s, b, u) * PERIOD;
      EndOf(s'.db, u) >= due || (EndOf(s'.db, u) == 0 && s'.db.now >= due)
  {
    ClockedIsNeverTooLate(a, b, u);
    PaymentsAreWorthPeriods(a, b, u);
    ForgottenIsPast(a, u);
    ForgottenIsPast(a + b, u);
    RunIsFit(a + b);
    FitIsEntitled(After(Start(), a + b), u);
    hide After, LastForgotten, Fit, NoneToldTooLate;
  }

  // --- two payments, told late ---

  function Row(status: PaymentStatus): Payment { Payment(7, Premium, "card", 100, status) }

  /** Two checkouts of one account at time 1. */
  const TWO_CHECKOUTS: seq<Move> := [Whole(Checkout(7, "card", 1, 100)), Whole(Checkout(7, "card", 2, 100))]

  const CHECKED_OUT: Db :=
    Db(1, map[7 := Subscription(Premium, Incomplete, 0, "card", 1, 1, false)],
       map[1 := Row(Pending), 2 := Row(Pending)])

  /** The row once the first of them has settled at time 1. */
  const PAID: Subscription := Subscription(Premium, Active, PERIOD + 1, "card", 1, 1, false)

  lemma TwoCheckouts()
    ensures After(Start(), TWO_CHECKOUTS) == State(CHECKED_OUT, map[]) && GrantsTo(Start(), TWO_CHECKOUTS, 7) == 0
  {
    Snoc(Start(), [], TWO_CHECKOUTS[0], 7);
    Snoc(Start(), [TWO_CHECKOUTS[0]], TWO_CHECKOUTS[1], 7);
    assert [] + [TWO_CHECKOUTS[0]] == [TWO_CHECKOUTS[0]];
    assert [TWO_CHECKOUTS[0]] + [TWO_CHECKOUTS[1]] == TWO_CHECKOUTS;
    var d := Moved(Start(), TWO_CHECKOUTS[0]).db;
    assert d.payments == map[1 := Row(Pending)] && d.subs == CHECKED_OUT.subs;
    assert d.payments[2 := Row(Pending)] == CHECKED_OUT.payments;
    assert d.subs[7 := CHECKED_OUT.subs[7]] == CHECKED_OUT.subs;
  }

  /** The run: one is paid at once; after its period the account checks out again; and
      only then comes the notice that the other was paid early on. */
  const DELAYED_NOTICE: seq<Move> :=
    TWO_CHECKOUTS + [Whole(Callback(1, Succeeded, 0))] + [Whole(Tick(PERIOD))]
    + [Whole(Checkout(7, "card", 3, 100))] + [Whole(Callback(2, Succeeded, 2))]

  /** A notice told too late: two payments give one period and a moment. */
  lemma DelayedNoticeLosesTime()
    ensures
      && GrantsTo(Start(), DELAYED_NOTICE, 7) == 2
      && EndOf(After(Start(), DELAYED_NOTICE[..4]).db, 7) == PERIOD + 1
      && EndOf(After(Start(), DELAYED_NOTICE[..5]).db, 7) == 0
      && EndOf(After(Start(), DELAYED_NOTICE).db, 7) == PERIOD + 2
  {
    hide After, GrantsTo;
    var m2 := TWO_CHECKOUTS;
    var m3 := m2 + [Whole(Callback(1, Succeeded, 0))];
    var m4 := m3 + [Whole(Tick(PERIOD))];
    var m5 := m4 + [Whole(Checkout(7, "card", 3, 100))];
    TwoCheckouts();
    Snoc(Start(), m2, Whole(Callback(1, Succeeded, 0)), 7);
    Snoc(Start(), m3, Whole(Tick(PERIOD)), 7);
    Snoc(Start(), m4, Whole(Checkout(7, "card", 3, 100)), 7);
    Snoc(Start(), m5, Whole(Callback(2, Succeeded, 2)), 7);
    var d3 := After(Start(), m3).db;
    assert d3.payments[2] == Row(Pending) && d3.subs[7] == PAID;
    var d5 := After(Start(), m5).db;
    assert d5.payments[2] == Row(Pending) && d5.subs[7].periodEnd == 0;
    assert DELAYED_NOTICE[..4] == m4 && DELAYED_NOTICE[..5] == m5;
  }

  // --- calls that are interrupted ---

  /** The call in hand as `id` read its row at move `j` of the run. */
  ghost predicate ReadAt(moves: seq<Move>, j: nat, id: nat) {
    && j < |moves| && id in After(Start(), moves).held
    && id !in After(Start(), moves[..j]).held && id in After(Start(), moves[..j + 1]).held
    && var h := After(Start(), moves).held[id];
       SeenEnd(h) == EndOf(After(Start(), moves[..j]).db, h.user)
  }

  lemma BeginSees(s: State, m: Move, id: nat)
    requires id !in s.held && id in Moved(s, m).held
    ensures SeenEnd(Moved(s, m).held[id]) == EndOf(s.db, Moved(s, m).held[id].user)
  {
  }

  lemma HeldStays(s: State, m: Move, id: nat)
    requires id in s.held && id in Moved(s, m).held
    ensures Moved(s, m).held[id] == s.held[id]
  {
  }

  lemma {:induction false} HeldSince(moves: seq<Move>, id: nat) returns (j: nat)
    requires id in After(Start(), moves).held
    ensures ReadAt(moves, j, id)
  {
    var n := |moves| - 1;
    assert moves != [];
    var s := After(Start(), moves[..n]);
    if id in s.held {
      j := HeldSince(moves[..n], id);
      HeldStays(s, moves[n], id);
      assert moves[..n][..j] == moves[..j] && moves[..n][..j + 1] == moves[..j + 1];
    } else {
      j := n;
      assert moves[..n + 1] == moves;
      BeginSees(s, moves[n], id);
    }
    hide Moved;
  }

  /** What moves an account's end forward: a payment that settles, or an end written back. */
  predicate Raises(s: State, m: Move, u: User) { Grants(s, m, u) || Restored(s, m, u) > 0 }

  lemma QuietMove(s: State, m: Move, u: User)
    requires Fit(s) && !Raises(s, m, u)
    ensures EndOf(Moved(s, m).db, u) <= EndOf(s.db, u)
  {
    FitIsEntitled(s, u);
    MoveMovesEnd(s, m, u);
    if m.Finish? && m.id in s.held {
      assert HeldFit(s.held[m.id], s.db.now);
    }
    hide Moved;
  }

  lemma {:induction false} NoRiseWithoutRaise(moves: seq<Move>, j: nat, u: User)
    requires j <= |moves|
    requires forall i :: j <= i < |moves| ==> !Raises(After(Start(), moves[..i]), moves[i], u)
    ensures EndOf(After(Start(), moves).db, u) <= EndOf(After(Start(), moves[..j]).db, u)
  {
    hide Raises, Moved, Billing.EndOf, Fit;
    if j == |moves| {
      assert moves[..j] == moves;
    } else {
      var n := |moves| - 1;
      forall i | j <= i < n ensures !Raises(After(Start(), moves[..n][..i]), moves[..n][i], u) {
        assert moves[..n][..i] == moves[..i];
      }
      NoRiseWithoutRaise(moves[..n], j, u);
      assert moves[..n][..j] == moves[..j];
      RunIsFit(moves[..n]);
      QuietMove(After(Start(), moves[..n]), moves[n], u);
    }
  }

  /** The call `id` is about to write the row of `u`. */
  predicate WritesRow(s: State, id: nat, u: User) {
    id in s.held && s.held[id].user == u && (s.held[id].Notice? ==> Grants(s, Finish(id), u))
  }

  /**
   In every run a callback, checkout or cancellation that writes takes back paid time if and
   only if the account's end is by then later than the one it had read, and for a
   callback also later than the payment; and then, between that read and the write, a
   payment settled or a cancellation wrote an older end back.
   */
  lemma LostOnlyToAWriteInBetween(moves: seq<Move>, id: nat, u: User)
    requires WritesRow(After(Start(), moves), id, u)
    ensures
      var s := After(Start(), moves);
      var h := s.held[id];
      Loss(s, Finish(id), u) > 0 <==>
        EndOf(s.db, u) > SeenEnd(h) && (h.Notice? ==> EndOf(s.db, u) > h.at)
    ensures Loss(After(Start(), moves), Finish(id), u) > 0 ==>
      exists j: nat, i ::
        ReadAt(moves, j, id) && j < i < |moves| && Raises(After(Start(), moves[..i]), moves[i], u)
  {
    var s := After(Start(), moves);
    RunIsFit(moves);
    assert HeldFit(s.held[id], s.db.now);
    LossIs(s, id, u);
    if Loss(s, Finish(id), u) > 0 {
      var j := HeldSince(moves, id);
      hide After, Loss, Raises, Fit, HeldFit;
      if forall i :: j <= i < |moves| ==> !Raises(After(Start(), moves[..i]), moves[i], u) {
        NoRiseWithoutRaise(moves, j, u);
        assert false;
      }
      var i :| j <= i < |moves| && Raises(After(Start(), moves[..i]), moves[i], u);
      OpeningRaisesNothing(moves, j, id, u);
    }
  }

  lemma LossIs(s: State, id: nat, u: User)
    requires WritesRow(s, id, u) && HeldFit(s.held[id], s.db.now)
    ensures
      var h := s.held[id];
      Loss(s, Finish(id), u) > 0 <==> EndOf(s.db, u) > SeenEnd(h) && (h.Notice? ==> EndOf(s.db, u) > h.at)
  {
  }

  lemma OpeningRaisesNothing(moves: seq<Move>, j: nat, id: nat, u: User)
    requires ReadAt(moves, j, id)
    ensures !Raises(After(Start(), moves[..j]), moves[j], u)
  {
    assert moves[..j + 1][..j] == moves[..j];
    BeginRaisesNothing(After(Start(), moves[..j]), moves[j], id, u);
    hide Raises, Moved;
  }

  lemma BeginRaisesNothing(s: State, m: Move, id: nat, u: User)
    requires id !in s.held && id in Moved(s, m).held
    ensures !Raises(s, m, u)
  {
  }

  /**
   In every run an account has premium exactly while its end lies ahead, and the only move
   but the passing of time that ends it is a write that takes back paid time in that way.
   */
  lemma AccessLostOnlyToAStaleWrite(moves: seq<Move>, m: Move, u: User)
    requires !(m.Whole? && m.step.Tick?)
    ensures
      var s, s' := After(Start(), moves), After(Start(), moves + [m]);
      && (Entitled(SubOf(s.db, u), s.db.now) <==> EndOf(s.db, u) > s.db.now)
      && (Entitled(SubOf(s.db, u), s.db.now) && !Entitled(SubOf(s'.db, u), s'.db.now) ==>
            m.Finish? && WritesRow(s, m.id, u) && Loss(s, m, u) > 0)
  {
    var s := After(Start(), moves);
    RunIsFit(moves);
    RunIsFit(moves + [m]);
    Snoc(Start(), moves, m, u);
    FitIsEntitled(s, u);
    FitIsEntitled(Moved(s, m), u);
    if EndOf(s.db, u) > s.db.now >= EndOf(Moved(s, m).db, u) {
      EndDropsOnlyByLoss(s, m, u);
    }
    NowStays(s, m);
    hide After, Moved, Fit, Loss, Grants, Entitled;
  }

  lemma NowStays(s: State, m: Move)
    requires !(m.Whole? && m.step.Tick?)
    ensures Moved(s, m).db.now == s.db.now
  {
  }

  lemma EndDropsOnlyByLoss(s: State, m: Move, u: User)
    requires Fit(s) && !(m.Whole? && m.step.Tick?)
    requires EndOf(s.db, u) > s.db.now >= EndOf(Moved(s, m).db, u)
    ensures m.Finish? && WritesRow(s, m.id, u) && Loss(s, m, u) > 0
  {
  }

  /** The run: two payments of one account notified at the same moment. */
  const TWO_AT_ONCE: seq<Move> :=
    TWO_CHECKOUTS + [BeginCallback(0, 1, Succeeded, 0)] + [BeginCallback(1, 2, Succeeded, 0)]
    + [Finish(0)] + [Finish(1)]

  /** Both are granted, and the account has one period. */
  lemma TwoAtOnceGiveOnePeriod()
    ensures
      && GrantsTo(Start(), TWO_AT_ONCE, 7) == 2
      && EndOf(After(Start(), TWO_AT_ONCE).db, 7) == PERIOD + 1
  {
    hide After, GrantsTo;
    var m2 := TWO_CHECKOUTS;
    var m3 := m2 + [BeginCallback(0, 1, Succeeded, 0)];
    var m4 := m3 + [BeginCallback(1, 2, Succeeded, 0)];
    var m5 := m4 + [Finish(0)];
    TwoCheckouts();
    Snoc(Start(), m2, BeginCallback(0, 1, Succeeded, 0), 7);
    Snoc(Start(), m3, BeginCallback(1, 2, Succeeded, 0), 7);
    Snoc(Start(), m4, Finish(0), 7);
    Snoc(Start(), m5, Finish(1), 7);
    var s4 := After(Start(), m4);
    assert s4.db == CHECKED_OUT;
    assert 0 in s4.held && s4.held[0] == Notice(1, Succeeded, 7, 1, 0, Some(PAID));
    assert 1 in s4.held && s4.held[1] == Notice(2, Succeeded, 7, 1, 0, Some(PAID));
    var s5 := After(Start(), m5);
    assert 1 in s5.held && s5.held[1] == s4.held[1] && s5.db.payments[2] == Row(Pending);
  }

  /** The run: a second payment settles while the account's cancellation is under way. */
  const CANCEL_MEETS_PAYMENT: seq<Move> :=
    TWO_CHECKOUTS + [Whole(Callback(1, Succeeded, 0))] + [BeginCancel(0, 7)]
    + [Whole(Callback(2, Succeeded, 0))] + [Finish(0)]

  /** The cancellation writes the old end back, and the second payment's period is gone. */
  lemma CancelTakesAPeriod()
    ensures
      && GrantsTo(Start(), CANCEL_MEETS_PAYMENT, 7) == 2
      && EndOf(After(Start(), CANCEL_MEETS_PAYMENT).db, 7) == PERIOD + 1
  {
    hide After, GrantsTo;
    var m2 := TWO_CHECKOUTS;
    var m3 := m2 + [Whole(Callback(1, Succeeded, 0))];
    var m4 := m3 + [BeginCancel(0, 7)];
    var m5 := m4 + [Whole(Callback(2, Succeeded, 0))];
    TwoCheckouts();
    Snoc(Start(), m2, Whole(Callback(1, Succeeded, 0)), 7);
    Snoc(Start(), m3, BeginCancel(0, 7), 7);
    Snoc(Start(), m4, Whole(Callback(2, Succeeded, 0)), 7);
    Snoc(Start(), m5, Finish(0), 7);
    var d3 := After(Start(), m3).db;
    assert d3.payments[2] == Row(Pending) && d3.subs[7] == PAID;
    var s4 := After(Start(), m4);
    assert 0 in s4.held && s4.held[0] == Rewrite(7, PAID.(cancelAtPeriodEnd := true));
    assert 0 in After(Start(), m5).held;
  }

  /** The run: a payment settles while another checkout of the account is under way. */
  const CHECKOUT_MEETS_PAYMENT: seq<Move> :=
    TWO_CHECKOUTS + [BeginCheckout(0, 7, "card", 3, 100, 0)] + [Whole(Callback(1, Succeeded, 0))] + [Finish(0)]

  /** The checkout, which had seen no live subscription, takes the paid access away. */
  lemma CheckoutTakesAccess()
    ensures
      && GrantsTo(Start(), CHECKOUT_MEETS_PAYMENT, 7) == 1
      && Entitled(SubOf(After(Start(), CHECKOUT_MEETS_PAYMENT[..4]).db, 7), 1)
      && After(Start(), CHECKOUT_MEETS_PAYMENT).db.now == 1
      && !Entitled(SubOf(After(Start(), CHECKOUT_MEETS_PAYMENT).db, 7), 1)
      && EndOf(After(Start(), CHECKOUT_MEETS_PAYMENT).db, 7) == 0
  {
    hide After, GrantsTo;
    var m2 := TWO_CHECKOUTS;
    var m3 := m2 + [BeginCheckout(0, 7, "card", 3, 100, 0)];
    var m4 := m3 + [Whole(Callback(1, Succeeded, 0))];
    TwoCheckouts();
    Snoc(Start(), m2, BeginCheckout(0, 7, "card", 3, 100, 0), 7);
    Snoc(Start(), m3, Whole(Callback(1, Succeeded, 0)), 7);
    Snoc(Start(), m4, Finish(0), 7);
    var s3 := After(Start(), m3);
    assert s3.db.payments[1] == Row(Pending) && 0 in s3.held && s3.held[0] == Reset(7, 0, "card", 1);
    var s4 := After(Start(), m4);
    assert s4.db.subs[7] == PAID && 0 in s4.held && s4.held[0] == s3.held[0];
    assert CHECKOUT_MEETS_PAYMENT[..4] == m4;
  }
}
