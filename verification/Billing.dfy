/**
 Payments and subscriptions: a payment state machine under duplicated and reordered
 callbacks, and the subscription periods settled payments buy. Times are unix
 milliseconds; amounts are minor units.
 */
module Billing {
  import opened Wrappers

  type User = nat
  type Ref = nat            // the acquirer's reference, the deduplication key

  const PERIOD: int := 30 * 24 * 60 * 60 * 1000

  datatype Plan = Free | Premium
  datatype SubscriptionStatus = Incomplete | Active | PastDue | Canceled
  datatype PaymentStatus = Pending | Succeeded | Failed | Refunded

  datatype Subscription = Subscription(
    plan: Plan, status: SubscriptionStatus, periodEnd: int, provider: string,
    createdAt: int, updatedAt: int, cancelAtPeriodEnd: bool)

  datatype Payment = Payment(user: User, plan: Plan, provider: string, amount: int, status: PaymentStatus)

  datatype Entitlements = Entitlements(
    plan: Plan, secretChats: bool, maxUploadBytes: int, maxPinnedChats: int, folders: bool,
    advancedSearch: bool, priorityDelivery: bool, voiceTranscription: bool, badge: bool, customThemes: bool)

  const FreeEntitlements: Entitlements :=
    Entitlements(Free, false, 100 * 1024 * 1024, 5, false, false, false, false, false, false)

  const PremiumEntitlements: Entitlements :=
    Entitlements(Premium, true, 4 * 1024 * 1024 * 1024, 100, true, true, true, true, true, true)

  predicate CanTransitionTo(p: PaymentStatus, next: PaymentStatus) {
    p != next &&
    match p
    case Pending => next == Succeeded || next == Failed
    case Succeeded => next == Refunded
    case Failed => next == Succeeded
    case Refunded => false
  }

  predicate Live(s: Subscription) { s.status == Active || s.status == PastDue }

  predicate ActiveAt(s: Subscription, now: int) {
    s.plan == Premium && Live(s) && (s.periodEnd == 0 || s.periodEnd > now)
  }

  /** An account without a row is on the free tier. */
  predicate Entitled(s: Option<Subscription>, now: int) { s.Some? && ActiveAt(s.value, now) }

  function EntitlementsFor(s: Option<Subscription>, now: int): Entitlements {
    if Entitled(s, now) then PremiumEntitlements else FreeEntitlements
  }

  // --- one payment under any callbacks ---

  function Next(p: PaymentStatus, cb: PaymentStatus): PaymentStatus {
    if CanTransitionTo(p, cb) then cb else p
  }

  function After(cbs: seq<PaymentStatus>): PaymentStatus {
    if cbs == [] then Pending else Next(After(cbs[..|cbs| - 1]), cbs[|cbs| - 1])
  }

  function Rank(p: PaymentStatus): nat {
    match p
    case Pending => 0
    case Failed => 1
    case Succeeded => 2
    case Refunded => 3
  }

  /** How often the callbacks granted a period: transitions into Succeeded. */
  function Grants(cbs: seq<PaymentStatus>): nat {
    if cbs == [] then 0
    else
      var before, cb := cbs[..|cbs| - 1], cbs[|cbs| - 1];
      Grants(before) + if cb == Succeeded && CanTransitionTo(After(before), cb) then 1 else 0
  }

  /** The status only ever rises, however callbacks are repeated or reordered. */
  lemma {:induction false} StatusOnlyRises(cbs: seq<PaymentStatus>, more: seq<PaymentStatus>)
    ensures Rank(After(cbs)) <= Rank(After(cbs + more))
    ensures Rank(After(cbs)) == Rank(After(cbs + more)) ==> After(cbs) == After(cbs + more)
  {
    if more == [] {
      assert cbs + more == cbs;
    } else {
      var n := |more| - 1;
      StatusOnlyRises(cbs, more[..n]);
      assert (cbs + more)[..|cbs + more| - 1] == cbs + more[..n];
    }
  }

  /** A period is granted at most once, and exactly once iff the payment ever succeeded. */
  lemma {:induction false} GrantedAtMostOnce(cbs: seq<PaymentStatus>)
    ensures Grants(cbs) == if Succeeded in cbs then 1 else 0
    ensures Succeeded in cbs <==> Rank(After(cbs)) >= 2
  {
    if cbs != [] {
      var n := |cbs| - 1;
      GrantedAtMostOnce(cbs[..n]);
      assert cbs == cbs[..n] + [cbs[n]];
    }
  }

  /** Without a refund, only the set of callbacks matters, not order or repeats. */
  lemma {:induction false} OrderDoesNotMatter(cbs: seq<PaymentStatus>)
    requires Refunded !in cbs
    ensures After(cbs) == if Succeeded in cbs then Succeeded else if Failed in cbs then Failed else Pending
  {
    if cbs != [] {
      var n := |cbs| - 1;
      assert cbs == cbs[..n] + [cbs[n]];
      OrderDoesNotMatter(cbs[..n]);
    }
  }

  /** A payment ends refunded exactly when some refund follows some success. */
  lemma {:induction false} RefundedExactlyWhen(cbs: seq<PaymentStatus>)
    ensures After(cbs) == Refunded <==> exists i, j :: 0 <= i < j < |cbs| && cbs[i] == Succeeded && cbs[j] == Refunded
  {
    if cbs != [] {
      var n := |cbs| - 1;
      var before := cbs[..n];
      RefundedExactlyWhen(before);
      GrantedAtMostOnce(before);
      if After(before) == Refunded {
        var i, j :| 0 <= i < j < |before| && before[i] == Succeeded && before[j] == Refunded;
        assert cbs[i] == Succeeded && cbs[j] == Refunded;
      } else if After(cbs) == Refunded {
        var i :| 0 <= i < n && before[i] == Succeeded;
        assert cbs[i] == Succeeded && cbs[n] == Refunded;
      }
      forall i, j | 0 <= i < j < |cbs| && cbs[i] == Succeeded && cbs[j] == Refunded
        ensures After(cbs) == Refunded
      {
        assert before[i] == Succeeded;
        assert j < n ==> before[j] == Refunded;
      }
    }
  }

  // --- the service's steps on the rows ---

  datatype Db = Db(now: int, subs: map<User, Subscription>, payments: map<Ref, Payment>)

  function SubOf(d: Db, u: User): Option<Subscription> {
    if u in d.subs then Some(d.subs[u]) else None
  }

  /** When the account's paid period ends; 0 without one. */
  function EndOf(d: Db, u: User): int { if u in d.subs then d.subs[u].periodEnd else 0 }

  /** subscriptionAfterPayment: the period extends a running one. */
  function AfterPayment(s: Option<Subscription>, p: Payment, at: int): Subscription {
    var created := if s.None? || s.value.createdAt == 0 then at else s.value.createdAt;
    var end := if s.Some? then s.value.periodEnd else 0;
    var from := if end > at then end else at;
    Subscription(p.plan, Active, from + PERIOD, p.provider, created, at, false)
  }

  /** ensureIncompleteSubscription: a live subscription is left alone. */
  function Ensured(s: Option<Subscription>, provider: string, now: int): Subscription {
    if Entitled(s, now) then s.value
    else Subscription(Premium, Incomplete, 0, provider, now, now, false)
  }

  function CheckedOut(d: Db, u: User, provider: string, ref: Ref, amount: int): Db {
    d.(payments := d.payments[ref := Payment(u, Premium, provider, amount, Pending)],
       subs := d.subs[u := Ensured(SubOf(d, u), provider, d.now)])
  }

  /** The time a callback counts from: the acquirer's, or ours without one. */
  function PaidAt(d: Db, paidAt: int): int { if paidAt == 0 then d.now else paidAt }

  /** A verified callback, applied in one step. */
  function Applied(d: Db, ref: Ref, status: PaymentStatus, paidAt: int): Db {
    if ref !in d.payments || !CanTransitionTo(d.payments[ref].status, status) then d
    else
      var p := d.payments[ref];
      var d' := d.(payments := d.payments[ref := p.(status := status)]);
      if status != Succeeded then d'
      else d'.(subs := d.subs[p.user := AfterPayment(SubOf(d, p.user), p, PaidAt(d, paidAt))])
  }

  function CanceledAt(d: Db, u: User): Db {
    if u !in d.subs then d
    else d.(subs := d.subs[u := d.subs[u].(cancelAtPeriodEnd := true, updatedAt := d.now)])
  }

  predicate Lapsed(s: Subscription, now: int) { Live(s) && s.periodEnd != 0 && s.periodEnd <= now }

  function Closed(s: Subscription, now: int): Subscription { s.(status := Canceled, updatedAt := now) }

  /** One pass of the expiry sweep over the accounts it gets to. */
  function Swept(d: Db, users: set<User>): Db {
    d.(subs := map u | u in d.subs ::
         if u in users && Lapsed(d.subs[u], d.now) then Closed(d.subs[u], d.now) else d.subs[u])
  }

  datatype Step =
    | Tick(ms: nat)
    | Checkout(u: User, provider: string, ref: Ref, amount: int)
    | Callback(ref: Ref, status: PaymentStatus, paidAt: int)
    | Cancel(u: User)
    | Sweep(users: set<User>)

  function Apply(d: Db, step: Step): Db {
    match step
    case Tick(ms) => d.(now := d.now + ms)
    case Checkout(u, provider, ref, amount) => if ref in d.payments then d else CheckedOut(d, u, provider, ref, amount)
    case Callback(ref, status, paidAt) => Applied(d, ref, status, paidAt)
    case Cancel(u) => CanceledAt(d, u)
    case Sweep(users) => Swept(d, users)
  }

  function Run(steps: seq<Step>): Db {
    if steps == [] then Db(1, map[], map[])
    else Apply(Run(steps[..|steps| - 1]), steps[|steps| - 1])
  }

  /** The callbacks a payment has received since its reference was attached. */
  ghost function Received(steps: seq<Step>, ref: Ref): seq<PaymentStatus> {
    if steps == [] then []
    else
      var before, step := steps[..|steps| - 1], steps[|steps| - 1];
      Received(before, ref) +
      if step.Callback? && step.ref == ref && ref in Run(before).payments then [step.status] else []
  }

  lemma StepMovesRow(d: Db, step: Step, ref: Ref)
    ensures ref in d.payments ==> ref in Apply(d, step).payments
    ensures ref in Apply(d, step).payments ==>
      Apply(d, step).payments[ref].status ==
        if ref !in d.payments then Pending
        else if step.Callback? && step.ref == ref then Next(d.payments[ref].status, step.status)
        else d.payments[ref].status
  {
  }

  /** In every run a payment's row is decided by its own callbacks alone. */
  lemma {:induction false} RowFollowsItsCallbacks(steps: seq<Step>, ref: Ref)
    ensures
      if ref in Run(steps).payments then Run(steps).payments[ref].status == After(Received(steps, ref))
      else Received(steps, ref) == []
  {
    if steps != [] {
      var before, step := steps[..|steps| - 1], steps[|steps| - 1];
      RowFollowsItsCallbacks(before, ref);
      StepMovesRow(Run(before), step, ref);
      hide Apply;
      var was := Received(before, ref);
      if step.Callback? && step.ref == ref && ref in Run(before).payments {
        assert (was + [step.status])[..|was|] == was;
      } else {
        assert Received(steps, ref) == was;
      }
    }
  }

  // --- who paid for what ---

  /** Step `i` is the checkout that first used the reference. */
  ghost predicate Opens(steps: seq<Step>, i: nat, ref: Ref) {
    && i < |steps| && steps[i].Checkout? && steps[i].ref == ref
    && forall j :: 0 <= j < i ==> !(steps[j].Checkout? && steps[j].ref == ref)
  }

  /** The row is about the checkout's user, provider and amount. */
  predicate IsFor(p: Payment, checkout: Step)
    requires checkout.Checkout?
  {
    p.user == checkout.u && p.plan == Premium && p.provider == checkout.provider && p.amount == checkout.amount
  }

  lemma StepKeepsTerms(d: Db, step: Step, ref: Ref)
    ensures ref in Apply(d, step).payments <==> ref in d.payments || (step.Checkout? && step.ref == ref)
    ensures ref in d.payments ==>
      && ref in Apply(d, step).payments
      && Apply(d, step).payments[ref] == d.payments[ref].(status := Apply(d, step).payments[ref].status)
    ensures ref !in d.payments && step.Checkout? && step.ref == ref ==> IsFor(Apply(d, step).payments[ref], step)
  {
    hide Ensured, AfterPayment;
  }

  /**
   In every run a reference names a payment exactly when some checkout used it, and that
   payment is for the user, provider and amount of the first checkout that did.
   */
  lemma {:induction false} PaymentIsForItsCheckout(steps: seq<Step>, ref: Ref)
    ensures ref in Run(steps).payments <==> exists i: nat :: Opens(steps, i, ref)
    ensures forall i: nat :: Opens(steps, i, ref) ==>
      ref in Run(steps).payments && IsFor(Run(steps).payments[ref], steps[i])
  {
    if steps != [] {
      var n := |steps| - 1;
      PaymentIsForItsCheckout(steps[..n], ref);
      StepKeepsTerms(Run(steps[..n]), steps[n], ref);
      OpensNext(steps, ref);
      hide Apply;
      if ref in Run(steps).payments {
        if ref in Run(steps[..n]).payments {
          var i: nat :| Opens(steps[..n], i, ref);
          assert Opens(steps, i, ref);
        } else {
          assert Opens(steps, n, ref);
        }
      }
    }
  }

  lemma OpensNext(steps: seq<Step>, ref: Ref)
    requires steps != []
    ensures
      var n := |steps| - 1;
      && (forall i: nat :: Opens(steps[..n], i, ref) ==> Opens(steps, i, ref))
      && (forall i: nat :: Opens(steps, i, ref) && i < n ==> Opens(steps[..n], i, ref))
      && (steps[n].Checkout? && steps[n].ref == ref ==>
            (Opens(steps, n, ref) <==> !exists i: nat :: Opens(steps[..n], i, ref)))
  {
    var n := |steps| - 1;
    if steps[n].Checkout? && steps[n].ref == ref && !Opens(steps, n, ref) {
      var i := FirstUse(steps[..n], ref);
    }
  }

  lemma {:induction false} FirstUse(steps: seq<Step>, ref: Ref) returns (i: nat)
    requires exists j :: 0 <= j < |steps| && steps[j].Checkout? && steps[j].ref == ref
    ensures Opens(steps, i, ref)
  {
    i := 0;
    while !(steps[i].Checkout? && steps[i].ref == ref)
      invariant i < |steps|
      invariant forall j :: 0 <= j < i ==> !(steps[j].Checkout? && steps[j].ref == ref)
      decreases |steps| - i
    {
      i := i + 1;
    }
  }

  /**
   In every run, the first success told about a checkout's payment extends the account of
   the user who checked out, by one period from the later of the payment and the end it
   had, and touches nobody else's. Told again, a success changes nothing at all.
   */
  lemma SuccessPaysForThePayer(steps: seq<Step>, i: nat, ref: Ref, paidAt: int, v: User)
    requires Opens(steps, i, ref)
    ensures
      var d, d' := Run(steps), Run(steps + [Callback(ref, Succeeded, paidAt)]);
      var u, at := steps[i].u, if paidAt == 0 then Run(steps).now else paidAt;
      if Succeeded in Received(steps, ref) then d' == d
      else
        && EndOf(d', u) == (if EndOf(d, u) > at then EndOf(d, u) else at) + PERIOD
        && (EndOf(d', u) > d'.now ==> Entitled(SubOf(d', u), d'.now))
        && (v != u ==> SubOf(d', v) == SubOf(d, v))
  {
    var step := Callback(ref, Succeeded, paidAt);
    assert (steps + [step])[..|steps|] == steps;
    PaymentIsForItsCheckout(steps, ref);
    RowFollowsItsCallbacks(steps, ref);
    GrantedAtMostOnce(Received(steps, ref));
    RunKeepsFuturePaid(steps + [step]);
    hide Received, After, Run, IsFor;
    SuccessIs(Run(steps), ref, paidAt);
  }

  lemma SuccessIs(d: Db, ref: Ref, paidAt: int)
    requires ref in d.payments
    ensures
      var d', u, at := Apply(d, Callback(ref, Succeeded, paidAt)), d.payments[ref].user, PaidAt(d, paidAt);
      if d.payments[ref].status in {Succeeded, Refunded} then d' == d
      else
        && EndOf(d', u) == (if EndOf(d, u) > at then EndOf(d, u) else at) + PERIOD
        && forall v :: v != u ==> SubOf(d', v) == SubOf(d, v)
  {
  }

  // --- a cancellation ---

  /** The user's subscription is to end: the last thing that set or cleared the flag was a
      cancellation, not a payment that settled nor a checkout that found nothing running. */
  ghost predicate CancelStands(steps: seq<Step>, u: User) {
    steps != [] &&
    var before, step := steps[..|steps| - 1], steps[|steps| - 1];
    var d := Run(before);
    if step == Cancel(u) then u in d.subs
    else CancelStands(before, u) && !IsGrant(d, step, u) && !StartsOver(d, step, u)
  }

  predicate StartsOver(d: Db, step: Step, u: User) {
    step.Checkout? && step.u == u && step.ref !in d.payments && !Entitled(SubOf(d, u), d.now)
  }

  /** In every run the flag a cancellation sets stands until a payment settles or a lapsed account checks out. */
  lemma {:induction false} CancelStandsExactlyUntil(steps: seq<Step>, u: User)
    ensures CancelStands(steps, u) <==> u in Run(steps).subs && Run(steps).subs[u].cancelAtPeriodEnd
  {
    if steps != [] {
      CancelStandsExactlyUntil(steps[..|steps| - 1], u);
      StepMovesFlag(Run(steps[..|steps| - 1]), steps[|steps| - 1], u);
      hide Apply;
    }
  }

  lemma StepMovesFlag(d: Db, step: Step, u: User)
    ensures
      var d' := Apply(d, step);
      u in d'.subs && d'.subs[u].cancelAtPeriodEnd <==>
        if step == Cancel(u) then u in d.subs
        else u in d.subs && d.subs[u].cancelAtPeriodEnd && !IsGrant(d, step, u) && !StartsOver(d, step, u)
  {
  }

  // --- sweeping is invisible ---

  function NoSweeps(steps: seq<Step>): seq<Step> {
    if steps == [] then []
    else NoSweeps(steps[..|steps| - 1]) + if steps[|steps| - 1].Sweep? then [] else [steps[|steps| - 1]]
  }

  /** Rows that differ at most in whether a lapsed subscription has been closed. */
  predicate Alike(x: Subscription, y: Subscription, now: int) {
    && x.plan == y.plan && x.periodEnd == y.periodEnd && x.provider == y.provider
    && x.createdAt == y.createdAt && x.cancelAtPeriodEnd == y.cancelAtPeriodEnd
    && (x.status == y.status ||
        (x.status == Canceled && Live(y) && y.periodEnd != 0 && y.periodEnd <= now))
  }

  ghost predicate Twins(d: Db, e: Db) {
    && d.now == e.now && d.payments == e.payments && d.subs.Keys == e.subs.Keys
    && forall u :: u in d.subs ==> Alike(d.subs[u], e.subs[u], d.now)
  }

  lemma StepKeepsTwins(d: Db, e: Db, step: Step)
    requires Twins(d, e)
    ensures Twins(Apply(d, step), if step.Sweep? then e else Apply(e, step))
  {
    match step
    case Tick(ms) =>
    case Checkout(u, provider, ref, amount) =>
    case Callback(ref, status, paidAt) =>
    case Cancel(u) =>
    case Sweep(users) =>
  }

  lemma {:induction false} SweepsErase(steps: seq<Step>)
    ensures Twins(Run(steps), Run(NoSweeps(steps)))
  {
    if steps != [] {
      var before, step := steps[..|steps| - 1], steps[|steps| - 1];
      SweepsErase(before);
      StepKeepsTwins(Run(before), Run(NoSweeps(before)), step);
      if !step.Sweep? {
        assert NoSweeps(steps)[..|NoSweeps(before)|] == NoSweeps(before);
      } else {
        assert NoSweeps(steps) == NoSweeps(before);
      }
    }
  }

  /**
   Two runs that differ only in when, or whether, lapsed subscriptions are swept give
   every account the same entitlements and the same period end; the argument covers
   every prefix, so they agree at every moment.
   */
  lemma SweepingIsInvisible(a: seq<Step>, b: seq<Step>, u: User)
    requires NoSweeps(a) == NoSweeps(b)
    ensures
      var d, e := Run(a), Run(b);
      && d.now == e.now && d.payments == e.payments
      && EntitlementsFor(SubOf(d, u), d.now) == EntitlementsFor(SubOf(e, u), e.now)
      && EndOf(d, u) == EndOf(e, u)
  {
    SweepsErase(a);
    SweepsErase(b);
  }

  // --- paid access is never taken away ---

  /** A subscription that grants access has an end. */
  ghost predicate Ends(d: Db) {
    && d.now > 0
    && (forall u :: u in d.subs ==> d.subs[u].periodEnd >= 0 && (Live(d.subs[u]) ==> d.subs[u].periodEnd > 0))
    && (forall r :: r in d.payments ==> d.payments[r].plan == Premium)
  }

  lemma StepKeepsEnds(d: Db, step: Step)
    requires Ends(d)
    ensures Ends(Apply(d, step))
  {
  }

  lemma {:induction false} RunKeepsEnds(steps: seq<Step>)
    ensures Ends(Run(steps))
  {
    if steps != [] {
      RunKeepsEnds(steps[..|steps| - 1]);
      StepKeepsEnds(Run(steps[..|steps| - 1]), steps[|steps| - 1]);
    }
  }

  /** The steps by which somebody's settled payment grants `u` a period. */
  predicate IsGrant(d: Db, step: Step, u: User) {
    && step.Callback? && step.status == Succeeded
    && step.ref in d.payments && d.payments[step.ref].user == u
    && CanTransitionTo(d.payments[step.ref].status, Succeeded)
  }

  /**
   No step but the passing of time makes an account that is active now inactive or
   shortens its period, whatever else the run did before.
   */
  lemma AccessIsNotTakenAway(steps: seq<Step>, step: Step, u: User)
    requires !step.Tick? && Entitled(SubOf(Run(steps), u), Run(steps).now)
    ensures
      var d, d' := Run(steps), Apply(Run(steps), step);
      Entitled(SubOf(d', u), d'.now) && EndOf(d', u) >= EndOf(d, u)
  {
    RunKeepsEnds(steps);
  }

  /** A period end in the future belongs to a subscription that grants access. */
  ghost predicate FuturePaid(d: Db) {
    forall u :: u in d.subs && d.subs[u].periodEnd > d.now ==> ActiveAt(d.subs[u], d.now)
  }

  lemma StepKeepsFuturePaid(d: Db, step: Step)
    requires Ends(d) && FuturePaid(d)
    ensures FuturePaid(Apply(d, step))
  {
  }

  lemma {:induction false} RunKeepsFuturePaid(steps: seq<Step>)
    ensures FuturePaid(Run(steps))
  {
    if steps != [] {
      RunKeepsEnds(steps[..|steps| - 1]);
      RunKeepsFuturePaid(steps[..|steps| - 1]);
      StepKeepsFuturePaid(Run(steps[..|steps| - 1]), steps[|steps| - 1]);
    }
  }

  /** In every run an account has premium exactly while its period end lies ahead. */
  lemma EntitledExactlyUntilEnd(steps: seq<Step>, u: User)
    ensures EntitlementsFor(SubOf(Run(steps), u), Run(steps).now) == PremiumEntitlements <==>
      EndOf(Run(steps), u) > Run(steps).now
  {
    RunKeepsEnds(steps);
    RunKeepsFuturePaid(steps);
  }

  /** After a sweep that reaches every account, the rows still live are exactly those with time ahead. */
  lemma SweepLeavesOnlyTheEntitled(steps: seq<Step>, users: set<User>, u: User)
    requires Run(steps).subs.Keys <= users
    ensures
      var d := Run(steps + [Sweep(users)]);
      && d.subs.Keys == Run(steps).subs.Keys
      && (u in d.subs ==> (Live(d.subs[u]) <==> d.subs[u].periodEnd > d.now))
  {
    assert (steps + [Sweep(users)])[..|steps|] == steps;
    RunKeepsEnds(steps);
    RunKeepsFuturePaid(steps);
    hide Run;
  }

  /**
   In every run a checkout changes an account's stored period end if and only if that
   end is set and has passed; it is then forgotten. Time still to come is never lost.
   */
  lemma CheckoutResetsExactlyWhen(steps: seq<Step>, u: User, provider: string, ref: Ref, amount: int)
    requires ref !in Run(steps).payments
    ensures
      var d, d' := Run(steps), Run(steps + [Checkout(u, provider, ref, amount)]);
      && (EndOf(d', u) != EndOf(d, u) <==> 0 < EndOf(d, u) <= d.now)
      && (EndOf(d', u) == EndOf(d, u) || EndOf(d', u) == 0)
  {
    var step := Checkout(u, provider, ref, amount);
    assert (steps + [step])[..|steps|] == steps;
    EntitledExactlyUntilEnd(steps, u);
    RunKeepsEnds(steps);
  }

  // --- the service ---

  datatype Result =
    | Ok | NoIdempotencyKey | NoOffer | ChargeFailed | NoProviderRef | Duplicate | AmountMismatch | NotFound

  /** What the price list and the provider table say for the request's country and method. */
  datatype Offer = Offer(provider: string, amount: int)

  /** The acquirer's answer to a charge. */
  datatype Charge = Refused | WithoutRef | Accepted(ref: Ref)

  class Service {
    var now: int
    var subs: map<User, Subscription>
    var payments: map<Ref, Payment>   // the rows whose reference is attached
    var keys: set<(User, string)>     // idempotency keys of every row

    ghost function Model(): Db
      reads this
    {
      Db(now, subs, payments)
    }

    /**
     Checkout, given the offer and the acquirer's answer. A key used before reaches the
     same payment and changes nothing; a failed charge keeps its key taken.
     */
    method Checkout(u: User, key: string, offer: Option<Offer>, charge: Charge) returns (r: Result)
      requires charge.Accepted? ==> charge.ref !in payments
      modifies this
      ensures r == NoIdempotencyKey <==> key == ""
      ensures r == NoOffer <==> key != "" && offer.None?
      ensures r == Duplicate <==> key != "" && offer.Some? && (u, key) in old(keys)
      ensures r == Ok <==> key != "" && offer.Some? && (u, key) !in old(keys) && charge.Accepted?
      ensures r == ChargeFailed <==> key != "" && offer.Some? && (u, key) !in old(keys) && charge.Refused?
      ensures r == Ok ==>
        && Model() == Apply(old(Model()), Step.Checkout(u, offer.value.provider, charge.ref, offer.value.amount))
        && payments == old(payments)[charge.ref :=
             Payment(u, Premium, offer.value.provider, offer.value.amount, Pending)]
      ensures r != Ok ==> Model() == old(Model())
      ensures r in {NoIdempotencyKey, NoOffer, Duplicate, Ok, ChargeFailed, NoProviderRef}
      ensures keys == if r in {NoIdempotencyKey, NoOffer} then old(keys) else old(keys) + {(u, key)}
    {
      if key == "" {
        return NoIdempotencyKey;
      }
      if offer.None? {
        return NoOffer;
      }
      if (u, key) in keys {
        return Duplicate;
      }
      keys := keys + {(u, key)};
      match charge {
        case Refused => return ChargeFailed;
        case WithoutRef => return NoProviderRef;
        case Accepted(ref) =>
          payments := payments[ref := Payment(u, Premium, offer.value.provider, offer.value.amount, Pending)];
          EnsureIncompleteSubscription(u, offer.value.provider);
          r := Ok;
      }
    }

    method EnsureIncompleteSubscription(u: User, provider: string)
      modifies this`subs
      ensures subs == old(subs)[u := Ensured(SubOf(old(Model()), u), provider, now)]
    {
      if u in subs && ActiveAt(subs[u], now) {
        assert subs[u := subs[u]] == subs;
        return;
      }
      subs := subs[u := Subscription(Premium, Incomplete, 0, provider, now, now, false)];
    }

    /** A callback that changes nothing, or names no payment of ours, is a success. */
    method HandleCallback(ref: Ref, status: PaymentStatus, amount: int, paidAt: int) returns (r: Result)
      modifies this
      ensures r == AmountMismatch <==> ref in old(payments) && amount != 0 && amount != old(payments)[ref].amount
      ensures r == Ok || r == AmountMismatch
      ensures Model() == if r == Ok then Apply(old(Model()), Callback(ref, status, paidAt)) else old(Model())
    {
      if ref !in payments {
        return Ok;
      }
      var p := payments[ref];
      if amount != 0 && amount != p.amount {
        return AmountMismatch;
      }
      var at := if paidAt == 0 then now else paidAt;
      var sub := None;
      if status == Succeeded {
        var s := SubscriptionAfterPayment(p, at);
        sub := Some(s);
      }
      if CanTransitionTo(p.status, status) {
        payments := payments[ref := p.(status := status)];
        if sub.Some? {
          subs := subs[p.user := sub.value];
        }
      }
      r := Ok;
    }

    method SubscriptionAfterPayment(p: Payment, at: int) returns (s: Subscription)
      ensures s == AfterPayment(SubOf(Model(), p.user), p, at)
      ensures s.plan == p.plan && s.provider == p.provider && s.status == Active && !s.cancelAtPeriodEnd
      ensures s.updatedAt == at
      ensures
        var known := p.user in subs && subs[p.user].createdAt != 0;
        s.createdAt == if known then subs[p.user].createdAt else at
      ensures
        var end := if p.user in subs then subs[p.user].periodEnd else 0;
        s.periodEnd == (if end > at then end else at) + PERIOD
    {
      s := if p.user in subs then subs[p.user] else Subscription(Free, Incomplete, 0, "", at, 0, false);
      var from := at;
      if s.periodEnd > at {
        from := s.periodEnd;
      }
      s := s.(plan := p.plan, status := Active, provider := p.provider, periodEnd := from + PERIOD,
              cancelAtPeriodEnd := false, updatedAt := at);
      if s.createdAt == 0 {
        s := s.(createdAt := at);
      }
    }

    method Cancel(u: User) returns (r: Result)
      modifies this`subs
      ensures r == NotFound <==> u !in old(subs)
      ensures Model() == Apply(old(Model()), Step.Cancel(u))
      ensures r == Ok ==> u in subs && subs[u] == old(subs)[u].(cancelAtPeriodEnd := true, updatedAt := now)
      ensures r == Ok || r == NotFound
    {
      if u !in subs {
        return NotFound;
      }
      subs := subs[u := subs[u].(cancelAtPeriodEnd := true, updatedAt := now)];
      r := Ok;
    }

    /** One bounded pass of the expiry sweep, over accounts in any order. */
    method SweepExpired(batch: nat) returns (closed: set<User>)
      modifies this`subs
      ensures |closed| <= batch
      ensures Model() == Apply(old(Model()), Sweep(closed))
      ensures subs.Keys == old(subs).Keys
      ensures forall u :: u in subs ==>
        subs[u] == if u in closed then old(subs)[u].(status := Canceled, updatedAt := now) else old(subs)[u]
      ensures forall u :: u in closed ==> u in old(subs) && Lapsed(old(subs)[u], now)
      ensures |closed| < batch ==> forall u :: u in old(subs) && Lapsed(old(subs)[u], now) ==> u in closed
    {
      closed := {};
      var todo := subs.Keys;
      assert subs == Swept(old(Model()), {}).subs;
      while todo != {} && |closed| < batch
        invariant todo <= old(subs).Keys && closed !! todo && |closed| <= batch
        invariant subs == Swept(old(Model()), closed).subs
        invariant forall u :: u in closed ==> u in old(subs) && Lapsed(old(subs)[u], now)
        invariant forall u :: u in old(subs) && u !in todo && Lapsed(old(subs)[u], now) ==> u in closed
        decreases |todo|
      {
        var u :| u in todo;
        todo := todo - {u};
        assert subs[u] == old(subs)[u];
        if Lapsed(subs[u], now) {
          subs := subs[u := Closed(subs[u], now)];
          closed := closed + {u};
        }
      }
    }
  }

  /** Anything a client, an acquirer or the clock may ask of the service. */
  datatype Request =
    | Wait(ms: nat)
    | Buy(u: User, key: string, offer: Option<Offer>, charge: Charge)
    | Notify(ref: Ref, status: PaymentStatus, amount: int, paidAt: int)
    | Stop(u: User)
    | SweepUp(batch: nat)

  /** One request; an acquirer never gives the same reference twice. */
  method Serve(s: Service, q: Request)
    requires q.Buy? && q.charge.Accepted? ==> q.charge.ref !in s.payments
    modifies s
    ensures forall ref :: ref in old(s.payments) ==>
      ref in s.payments && s.payments[ref] == old(s.payments)[ref].(status := s.payments[ref].status)
  {
    hide AfterPayment, Ensured, Swept;
    match q
    case Wait(ms) => s.now := s.now + ms;
    case Buy(u, key, offer, charge) => var _ := s.Checkout(u, key, offer, charge);
    case Notify(ref, status, amount, paidAt) => var _ := s.HandleCallback(ref, status, amount, paidAt);
    case Stop(u) => var _ := s.Cancel(u);
    case SweepUp(batch) => var _ := s.SweepExpired(batch);
  }

  /**
   From any state: a checkout that is accepted, then any other requests, then the notice
   that its offer was paid. The notice is accepted, and unless a success was told before
   it extends the buyer's own period and nobody else's.
   */
  method BuyAndPay(s: Service, u: User, key: string, offer: Offer, ref: Ref, others: seq<Request>, paidAt: int)
    returns (bought: Result, paid: Result, between: Db)
    requires ref !in s.payments
    modifies s
    ensures bought == Ok <==> key != "" && (u, key) !in old(s.keys)
    ensures bought == Ok ==> paid == Ok && ref in between.payments && between.payments[ref].user == u
    ensures bought == Ok && between.payments[ref].status in {Pending, Failed} ==>
      var at := PaidAt(between, paidAt);
      && EndOf(s.Model(), u) == (if EndOf(between, u) > at then EndOf(between, u) else at) + PERIOD
      && forall v :: v != u ==> SubOf(s.Model(), v) == SubOf(between, v)
    ensures bought == Ok && between.payments[ref].status in {Succeeded, Refunded} ==> s.Model() == between
  {
    bought := s.Checkout(u, key, Some(offer), Accepted(ref));
    for i := 0 to |others|
      invariant bought == Ok ==>
        ref in s.payments && s.payments[ref].user == u && s.payments[ref].amount == offer.amount
    {
      var q := others[i];
      if !(q.Buy? && q.charge.Accepted? && q.charge.ref in s.payments) {
        Serve(s, q);
      }
    }
    between := Db(s.now, s.subs, s.payments);
    paid := s.HandleCallback(ref, Succeeded, offer.amount, paidAt);
  }
}
