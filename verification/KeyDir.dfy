/**
 The prekey directory. One-time prekeys are appended by their device and consumed one
 per fetch, oldest first; a ceiling trims the oldest and a stale entry is forgotten.
 Ids are pairs of user and device; times are unix milliseconds, 0 the zero time.
 */
module KeyDir {
  import opened Wrappers

  const MAX_ONE_TIME_PREKEYS: nat := 256
  const MAX_PREKEYS_PER_PUBLISH: nat := 128
  const ENTRY_TTL: int := 90 * 24 * 60 * 60 * 1000

  type User = nat
  type Device = nat
  type Id = (User, Device)

  datatype Body = Body(identityKey: string, signingKey: string, signedPreKey: string, signature: string,
                       preKeys: seq<string>)

  datatype Bundle = Bundle(id: Id, identityKey: string, signingKey: string, signedPreKey: string, signature: string,
                           oneTime: Option<string>)

  datatype State = State(left: nat, accepted: nat, firstSeen: int)

  datatype Entry = Entry(identityKey: string, signingKey: string, signedPreKey: string, signature: string,
                         firstSeen: int, oneTime: seq<string>)

  const NoEntry: Entry := Entry("", "", "", "", 0, [])

  // --- one publish, one fetch ---

  function Truncated(incoming: seq<string>): seq<string> {
    if |incoming| > MAX_PREKEYS_PER_PUBLISH then incoming[..MAX_PREKEYS_PER_PUBLISH] else incoming
  }

  function Newest(keys: seq<string>): seq<string> {
    if |keys| > MAX_ONE_TIME_PREKEYS then keys[|keys| - MAX_ONE_TIME_PREKEYS..] else keys
  }

  function Survivors(pushed: nat, left: nat): nat {
    if pushed < left then pushed else left
  }

  function AppendCapped(existing: seq<string>, incoming: seq<string>): (seq<string>, nat) {
    var keys := Truncated(incoming);
    var out := Newest(existing + keys);
    (out, Survivors(|keys|, |out|))
  }

  /**
   Accepted is exact: the stored list ends with that many of the frame's own keys,
   everything before them is older, and with these ceilings every key within the
   per-publish bound is among them.
   */
  lemma AcceptedIsExact(existing: seq<string>, incoming: seq<string>)
    requires |existing| <= MAX_ONE_TIME_PREKEYS
    ensures
      var (out, accepted) := AppendCapped(existing, incoming);
      var older := |out| - accepted;
      && accepted == |Truncated(incoming)| <= |incoming|
      && (accepted < |incoming| <==> |incoming| > MAX_PREKEYS_PER_PUBLISH)
      && |out| <= MAX_ONE_TIME_PREKEYS
      && 0 <= older <= |existing|
      && out[older..] == incoming[..accepted]
      && out[..older] == existing[|existing| - older..]
  {
  }

  /** The entry a publish leaves: the key's age moves only when the key changes. */
  function Published(prior: Entry, b: Body, now: int): Entry {
    Entry(b.identityKey, b.signingKey, b.signedPreKey, b.signature,
          if prior.signedPreKey != b.signedPreKey then now else prior.firstSeen,
          AppendCapped(prior.oneTime, b.preKeys).0)
  }

  function PublishState(prior: Entry, b: Body, now: int): State {
    var e := Published(prior, b, now);
    State(|e.oneTime|, AppendCapped(prior.oneTime, b.preKeys).1, e.firstSeen)
  }

  function FirstKey(e: Entry): Option<string> {
    if e.oneTime == [] then None else Some(e.oneTime[0])
  }

  function Fetched(e: Entry): Entry {
    if e.oneTime == [] then e else e.(oneTime := e.oneTime[1..])
  }

  function BundleOf(id: Id, e: Entry): Bundle {
    Bundle(id, e.identityKey, e.signingKey, e.signedPreKey, e.signature, FirstKey(e))
  }

  // --- the ledger of one device's prekeys ---

  datatype Fate = HandedOut | Trimmed | Expired

  /** Every key the device ever pushed, in order, and what became of the oldest. */
  datatype Ledger = Ledger(pushed: seq<string>, fates: seq<Fate>)

  const NoKeys: Ledger := Ledger([], [])

  predicate Sound(l: Ledger) { |l.fates| <= |l.pushed| }

  function Stored(l: Ledger): seq<string>
    requires Sound(l)
  {
    l.pushed[|l.fates|..]
  }

  /** The key that the next fetch is due. */
  function Oldest(l: Ledger): Option<string> {
    if |l.fates| < |l.pushed| then Some(l.pushed[|l.fates|]) else None
  }

  function Times(f: Fate, n: nat): (fs: seq<Fate>)
    ensures |fs| == n && forall i :: 0 <= i < n ==> fs[i] == f
  {
    seq(n, _ => f)
  }

  function Push(l: Ledger, incoming: seq<string>): (r: Ledger)
    requires Sound(l)
    ensures Sound(r)
  {
    var pushed := l.pushed + Truncated(incoming);
    var held := |pushed| - |l.fates|;
    Ledger(pushed, l.fates + Times(Trimmed, if held > MAX_ONE_TIME_PREKEYS then held - MAX_ONE_TIME_PREKEYS else 0))
  }

  function Pop(l: Ledger): (r: Ledger)
    requires Sound(l)
    ensures Sound(r)
  {
    if Stored(l) == [] then l else l.(fates := l.fates + [HandedOut])
  }

  function Drop(l: Ledger): (r: Ledger)
    requires Sound(l)
    ensures Sound(r) && Stored(r) == []
  {
    l.(fates := l.fates + Times(Expired, |Stored(l)|))
  }

  /** The list the directory keeps is the ledger's stored part, at every step. */
  lemma PushStores(l: Ledger, incoming: seq<string>)
    requires Sound(l) && |Stored(l)| <= MAX_ONE_TIME_PREKEYS
    ensures Stored(Push(l, incoming)) == AppendCapped(Stored(l), incoming).0
    ensures |Stored(Push(l, incoming))| <= MAX_ONE_TIME_PREKEYS
  {
    var keys := Truncated(incoming);
    assert (l.pushed + keys)[|l.fates|..] == Stored(l) + keys;
  }

  lemma PopStores(l: Ledger)
    requires Sound(l) && Stored(l) != []
    ensures Stored(Pop(l)) == Stored(l)[1..]
    ensures Stored(l)[0] == l.pushed[|l.fates|]
  {
  }

  datatype Op = PushKeys(keys: seq<string>) | FetchOne | Forget

  function ApplyOp(l: Ledger, op: Op): (r: Ledger)
    requires Sound(l)
    ensures Sound(r)
  {
    match op
    case PushKeys(keys) => Push(l, keys)
    case FetchOne => Pop(l)
    case Forget => Drop(l)
  }

  function Given(l: Ledger, op: Op): seq<string>
    requires Sound(l)
  {
    if op.FetchOne? && Stored(l) != [] then [Stored(l)[0]] else []
  }

  function RunOps(ops: seq<Op>): (l: Ledger)
    ensures Sound(l)
  {
    if ops == [] then NoKeys else ApplyOp(RunOps(ops[..|ops| - 1]), ops[|ops| - 1])
  }

  /** The keys fetches returned, in order. */
  function Answers(ops: seq<Op>): seq<string> {
    if ops == [] then []
    else Answers(ops[..|ops| - 1]) + Given(RunOps(ops[..|ops| - 1]), ops[|ops| - 1])
  }

  /** The pushed keys with a given fate, in push order. */
  function With(l: Ledger, f: Fate): seq<string>
    requires Sound(l)
  {
    Marked(l.pushed, l.fates, f)
  }

  function Marked(pushed: seq<string>, fates: seq<Fate>, f: Fate): seq<string>
    requires |fates| <= |pushed|
    decreases |fates|
  {
    if fates == [] then []
    else
      var k := |fates| - 1;
      Marked(pushed, fates[..k], f) + if fates[k] == f then [pushed[k]] else []
  }

  lemma {:induction false} MarkedMorePushed(pushed: seq<string>, fates: seq<Fate>, more: seq<string>, f: Fate)
    requires |fates| <= |pushed|
    ensures Marked(pushed + more, fates, f) == Marked(pushed, fates, f)
    decreases |fates|
  {
    if fates != [] {
      MarkedMorePushed(pushed, fates[..|fates| - 1], more, f);
    }
  }

  lemma {:induction false} MarkedMoreFates(pushed: seq<string>, fates: seq<Fate>, g: Fate, n: nat, f: Fate)
    requires |fates| + n <= |pushed|
    ensures Marked(pushed, fates + Times(g, n), f) ==
      Marked(pushed, fates, f) + if f == g then pushed[|fates|..|fates| + n] else []
    decreases n
  {
    hide Marked;
    var k := |fates|;
    if n == 0 {
      assert fates + Times(g, 0) == fates;
    } else {
      MarkedMoreFates(pushed, fates, g, n - 1, f);
      assert fates + Times(g, n) == (fates + Times(g, n - 1)) + [g];
      MarkedNext(pushed, fates + Times(g, n - 1), g, f);
      assert pushed[k..k + n] == pushed[k..k + n - 1] + [pushed[k + n - 1]];
    }
  }

  lemma MarkedNext(pushed: seq<string>, fates: seq<Fate>, g: Fate, f: Fate)
    requires |fates| < |pushed|
    ensures Marked(pushed, fates + [g], f) == Marked(pushed, fates, f) + if g == f then [pushed[|fates|]] else []
  {
    assert (fates + [g])[..|fates|] == fates;
  }

  /**
   Over every run of publishes, fetches and expiries on one device: fetches hand out
   exactly the keys whose fate is to be handed out, oldest first, each pushed key at
   most once; and the keys pushed split exactly into handed out, trimmed, expired and
   still stored.
   */
  lemma {:induction false} HandedOutOnceInOrder(ops: seq<Op>)
    ensures
      var l := RunOps(ops);
      && Answers(ops) == With(l, HandedOut)
      && |l.pushed| == |With(l, HandedOut)| + |With(l, Trimmed)| + |With(l, Expired)| + |Stored(l)|
      && |Stored(l)| <= MAX_ONE_TIME_PREKEYS
  {
    if ops != [] {
      var before, op := ops[..|ops| - 1], ops[|ops| - 1];
      var l := RunOps(before);
      HandedOutOnceInOrder(before);
      OpSplits(l, op);
    }
  }

  lemma OpSplits(l: Ledger, op: Op)
    requires Sound(l) && |Stored(l)| <= MAX_ONE_TIME_PREKEYS
    ensures
      var l' := ApplyOp(l, op);
      && With(l', HandedOut) == With(l, HandedOut) + Given(l, op)
      && |Stored(l')| <= MAX_ONE_TIME_PREKEYS
      && |l'.pushed| - |With(l', HandedOut)| - |With(l', Trimmed)| - |With(l', Expired)| - |Stored(l')|
      == |l.pushed| - |With(l, HandedOut)| - |With(l, Trimmed)| - |With(l, Expired)| - |Stored(l)|
  {
    match op
    case PushKeys(keys) =>
      PushStores(l, keys);
      var mid := Ledger(l.pushed + Truncated(keys), l.fates);
      var n := |Push(l, keys).fates| - |l.fates|;
      SplitFates(mid, Trimmed, n);
      MarkedMorePushed(l.pushed, l.fates, Truncated(keys), HandedOut);
      MarkedMorePushed(l.pushed, l.fates, Truncated(keys), Trimmed);
      MarkedMorePushed(l.pushed, l.fates, Truncated(keys), Expired);
    case FetchOne =>
      if Stored(l) != [] {
        assert [HandedOut] == Times(HandedOut, 1);
        SplitFates(l, HandedOut, 1);
        assert l.pushed[|l.fates|..|l.fates| + 1] == [Stored(l)[0]];
      }
    case Forget => SplitFates(l, Expired, |Stored(l)|);
  }

  lemma SplitFates(l: Ledger, g: Fate, n: nat)
    requires |l.fates| + n <= |l.pushed|
    ensures
      var l' := l.(fates := l.fates + Times(g, n));
      && With(l', HandedOut) == With(l, HandedOut) + (if g == HandedOut then l.pushed[|l.fates|..|l.fates| + n] else [])
      && |With(l', HandedOut)| + |With(l', Trimmed)| + |With(l', Expired)|
      == |With(l, HandedOut)| + |With(l, Trimmed)| + |With(l, Expired)| + n
  {
    MarkedMoreFates(l.pushed, l.fates, g, n, HandedOut);
    MarkedMoreFates(l.pushed, l.fates, g, n, Trimmed);
    MarkedMoreFates(l.pushed, l.fates, g, n, Expired);
  }

  /** If a device never pushes the same key twice, no key is handed out twice. */
  lemma DistinctKeysHandedOutOnce(ops: seq<Op>)
    requires Distinct(RunOps(ops).pushed)
    ensures Distinct(Answers(ops))
  {
    HandedOutOnceInOrder(ops);
    MarkedIsDistinct(RunOps(ops).pushed, RunOps(ops).fates, HandedOut);
  }

  lemma {:induction false} MarkedIsDistinct(pushed: seq<string>, fates: seq<Fate>, f: Fate)
    requires |fates| <= |pushed| && Distinct(pushed)
    ensures Distinct(Marked(pushed, fates, f))
    ensures forall x :: x in Marked(pushed, fates, f) ==> x in pushed[..|fates|]
    decreases |fates|
  {
    if fates != [] {
      var k := |fates| - 1;
      MarkedIsDistinct(pushed, fates[..k], f);
      assert pushed[..k + 1] == pushed[..k] + [pushed[k]];
      var w := Marked(pushed, fates[..k], f);
      forall i | 0 <= i < |w| ensures w[i] != pushed[k] {
        assert w[i] in w;
        var j :| 0 <= j < k && pushed[..k][j] == w[i];
        assert pushed[j] == w[i];
      }
    }
  }

  // --- what a call does to the entries, in either form ---

  datatype Call = PublishCall(k: Id, b: Body, now: int) | FetchCall(k: Id, now: int)

  datatype Answer = Held(st: State) | Gave(bundle: Option<Bundle>)

  function Prior(dir: map<Id, Entry>, k: Id): Entry { if k in dir then dir[k] else NoEntry }

  /** The age the Redis form records: it stamps whatever a new device publishes. */
  function RedisFirstSeen(dir: map<Id, Entry>, k: Id, b: Body, now: int): int {
    if k !in dir then now else Published(dir[k], b, now).firstSeen
  }

  function FetchStep(dir: map<Id, Entry>, k: Id): (map<Id, Entry>, Answer) {
    if k !in dir || dir[k].identityKey == "" then (dir, Gave(None))
    else (dir[k := Fetched(dir[k])], Gave(Some(BundleOf(k, dir[k]))))
  }

  function Step(redis: bool, dir: map<Id, Entry>, c: Call): (map<Id, Entry>, Answer) {
    match c
    case FetchCall(k, _) => FetchStep(dir, k)
    case PublishCall(k, b, now) =>
      var e, st := Published(Prior(dir, k), b, now), PublishState(Prior(dir, k), b, now);
      if redis then
        var at := RedisFirstSeen(dir, k, b, now);
        (dir[k := e.(firstSeen := at)], Held(st.(firstSeen := at)))
      else (dir[k := e], Held(st))
  }

  /** The directory and every answer given, after a run of calls. */
  function Serve(redis: bool, calls: seq<Call>): (map<Id, Entry>, seq<Answer>) {
    if calls == [] then (map[], [])
    else
      var (dir, answers) := Serve(redis, calls[..|calls| - 1]);
      var (dir', a) := Step(redis, dir, calls[|calls| - 1]);
      (dir', answers + [a])
  }

  /** A call on which the two forms differ: an empty signed prekey from a new device. */
  predicate Differs(dir: map<Id, Entry>, c: Call) {
    c.PublishCall? && c.k !in dir && c.b.signedPreKey == "" && c.now != 0
  }

  // --- what a run of calls answers about one device ---

  /** What the device last published. */
  function LastBody(calls: seq<Call>, k: Id): Option<Body> {
    if calls == [] then None
    else
      var c := calls[|calls| - 1];
      if c.PublishCall? && c.k == k then Some(c.b) else LastBody(calls[..|calls| - 1], k)
  }

  /** A fetch finds a device that has published an identity key. */
  predicate Known(calls: seq<Call>, k: Id) {
    LastBody(calls, k).Some? && LastBody(calls, k).value.identityKey != ""
  }

  /** What the run does to the device's ledger. */
  function OpsOn(calls: seq<Call>, k: Id): seq<Op> {
    if calls == [] then []
    else
      var before, c := calls[..|calls| - 1], calls[|calls| - 1];
      OpsOn(before, k) + OpOf(before, c, k)
  }

  function OpOf(before: seq<Call>, c: Call, k: Id): seq<Op> {
    if c.k != k then []
    else if c.PublishCall? then [PushKeys(c.b.preKeys)]
    else if Known(before, k) then [FetchOne]
    else []
  }

  /** The one-time keys in the answers to fetches of the device, in order. */
  function KeysGiven(calls: seq<Call>, answers: seq<Answer>, k: Id): seq<string>
    requires |calls| == |answers|
  {
    if calls == [] then []
    else
      var n := |calls| - 1;
      KeysGiven(calls[..n], answers[..n], k) +
      if calls[n].FetchCall? && calls[n].k == k then KeyIn(answers[n]) else []
  }

  function KeyIn(a: Answer): seq<string> {
    if a.Gave? && a.bundle.Some? && a.bundle.value.oneTime.Some? then [a.bundle.value.oneTime.value] else []
  }

  /** The entry holds what was last published and the keys its ledger has stored. */
  predicate Follows(e: Entry, b: Body, l: Ledger)
    requires Sound(l)
  {
    && e.identityKey == b.identityKey && e.signingKey == b.signingKey
    && e.signedPreKey == b.signedPreKey && e.signature == b.signature
    && e.oneTime == Stored(l)
  }

  ghost predicate DirFollows(redis: bool, calls: seq<Call>, k: Id) {
    var dir, body, l := Serve(redis, calls).0, LastBody(calls, k), RunOps(OpsOn(calls, k));
    && (k in dir <==> body.Some?)
    && (k in dir ==> Follows(dir[k], body.value, l))
    && (body.None? ==> l == NoKeys)
  }

  lemma RunOpsSnoc(ops: seq<Op>, op: Op)
    ensures RunOps(ops + [op]) == ApplyOp(RunOps(ops), op)
    ensures Answers(ops + [op]) == Answers(ops) + Given(RunOps(ops), op)
  {
    assert (ops + [op])[..|ops|] == ops;
  }

  /** In every run the directory's entry for a device is made of its own calls alone. */
  lemma {:induction false} EntryFollowsItsCalls(redis: bool, calls: seq<Call>, k: Id)
    ensures DirFollows(redis, calls, k)
  {
    if calls != [] {
      var before, c := calls[..|calls| - 1], calls[|calls| - 1];
      var ops := OpsOn(before, k);
      EntryFollowsItsCalls(redis, before, k);
      HandedOutOnceInOrder(ops);
      if c.k != k {
        assert OpsOn(calls, k) == ops;
      } else if c.PublishCall? {
        PublishFollows(redis, before, c);
      } else if Known(before, k) {
        FetchFollows(redis, before, k, c.now);
      } else {
        assert OpsOn(calls, k) == ops;
      }
      hide Published, AppendCapped, Push, Pop, Drop, RunOps;
    }
  }

  lemma PublishFollows(redis: bool, before: seq<Call>, c: Call)
    requires c.PublishCall? && DirFollows(redis, before, c.k)
    requires |Stored(RunOps(OpsOn(before, c.k)))| <= MAX_ONE_TIME_PREKEYS
    ensures
      var l := RunOps(OpsOn(before, c.k) + [PushKeys(c.b.preKeys)]);
      var dir := Step(redis, Serve(redis, before).0, c).0;
      c.k in dir && Follows(dir[c.k], c.b, l)
  {
    hide Push;
    RunOpsSnoc(OpsOn(before, c.k), PushKeys(c.b.preKeys));
    PushStores(RunOps(OpsOn(before, c.k)), c.b.preKeys);
    hide AppendCapped, RunOps;
  }

  lemma FetchFollows(redis: bool, before: seq<Call>, k: Id, now: int)
    requires DirFollows(redis, before, k) && Known(before, k)
    ensures
      var l := RunOps(OpsOn(before, k) + [FetchOne]);
      var dir := Step(redis, Serve(redis, before).0, FetchCall(k, now)).0;
      k in dir && Follows(dir[k], LastBody(before, k).value, l)
  {
    RunOpsSnoc(OpsOn(before, k), FetchOne);
    var l := RunOps(OpsOn(before, k));
    if Stored(l) != [] {
      PopStores(l);
    }
    hide RunOps;
  }

  /**
   In every run, on either backend, a fetch answers with a bundle if and only if the device
   last published an identity key; it then carries the device's id, the four keys and
   signatures of that publish, and the oldest one-time key not yet handed out or trimmed.
   */
  lemma FetchServesLastPublish(redis: bool, calls: seq<Call>, k: Id, now: int)
    ensures
      var a := Serve(redis, calls + [FetchCall(k, now)]).1;
      && |a| == |calls| + 1 && a[|calls|].Gave?
      && (a[|calls|].bundle.Some? <==> Known(calls, k))
      && (a[|calls|].bundle.Some? ==>
            var b := LastBody(calls, k).value;
            a[|calls|].bundle.value == Bundle(k, b.identityKey, b.signingKey, b.signedPreKey, b.signature,
                                              Oldest(RunOps(OpsOn(calls, k)))))
  {
    EntryFollowsItsCalls(redis, calls, k);
    OneAnswerEach(redis, calls);
    assert (calls + [FetchCall(k, now)])[..|calls|] == calls;
    hide RunOps, OpsOn, LastBody;
  }

  /** Every key the device pushed in the run, cut at the per-publish bound, in order. */
  function PushedBy(calls: seq<Call>, k: Id): seq<string> {
    if calls == [] then []
    else
      var c := calls[|calls| - 1];
      PushedBy(calls[..|calls| - 1], k) +
      if c.PublishCall? && c.k == k then Truncated(c.b.preKeys) else []
  }

  lemma {:induction false} LedgerHoldsPushes(calls: seq<Call>, k: Id)
    ensures RunOps(OpsOn(calls, k)).pushed == PushedBy(calls, k)
  {
    if calls != [] {
      var before, c := calls[..|calls| - 1], calls[|calls| - 1];
      LedgerHoldsPushes(before, k);
      var ops, last := OpsOn(before, k), OpOf(before, c, k);
      if last == [] {
        assert OpsOn(calls, k) == ops;
      } else {
        RunOpsSnoc(ops, last[0]);
        OpPushes(RunOps(ops), last[0]);
      }
      hide RunOps, ApplyOp, Truncated, LastBody;
    }
  }

  lemma OpPushes(l: Ledger, op: Op)
    requires Sound(l)
    ensures ApplyOp(l, op).pushed == l.pushed + if op.PushKeys? then Truncated(op.keys) else []
  {
  }

  lemma {:induction false} GivenAreAnswers(redis: bool, calls: seq<Call>, k: Id)
    ensures |Serve(redis, calls).1| == |calls|
    ensures KeysGiven(calls, Serve(redis, calls).1, k) == Answers(OpsOn(calls, k))
  {
    OneAnswerEach(redis, calls);
    if calls != [] {
      var n := |calls| - 1;
      GivenAreAnswers(redis, calls[..n], k);
      OneAnswerEach(redis, calls[..n]);
      var answers := Serve(redis, calls).1;
      assert answers[..n] == Serve(redis, calls[..n]).1;
      LastGiven(redis, calls, k);
    }
  }

  lemma LastGiven(redis: bool, calls: seq<Call>, k: Id)
    requires calls != [] && |Serve(redis, calls).1| == |calls|
    ensures
      var n := |calls| - 1;
      Answers(OpsOn(calls, k)) == Answers(OpsOn(calls[..n], k)) +
        if calls[n].FetchCall? && calls[n].k == k then KeyIn(Serve(redis, calls).1[n]) else []
  {
    var n := |calls| - 1;
    var before, c, ops := calls[..n], calls[n], OpsOn(calls[..n], k);
    assert OpsOn(calls, k) == ops + OpOf(before, c, k);
    hide Serve, RunOps, Answers, OpsOn, KeyIn, LastBody;
    if c.k != k || (c.FetchCall? && !Known(before, k)) {
      assert ops + [] == ops;
    }
    if c.k == k {
      if c.FetchCall? {
        assert before + [FetchCall(k, c.now)] == calls;
        FetchGives(redis, before, k, c.now);
      } else {
        RunOpsSnoc(ops, PushKeys(c.b.preKeys));
      }
    }
  }

  lemma FetchGives(redis: bool, calls: seq<Call>, k: Id, now: int)
    ensures
      var a := Serve(redis, calls + [FetchCall(k, now)]).1;
      && |a| == |calls| + 1
      && Answers(OpsOn(calls, k) + OpOf(calls, FetchCall(k, now), k)) == Answers(OpsOn(calls, k)) + KeyIn(a[|calls|])
  {
    var ops := OpsOn(calls, k);
    FetchServesLastPublish(redis, calls, k, now);
    RunOpsSnoc(ops, FetchOne);
    hide Serve, RunOps, Answers, OpsOn, LastBody, Known;
    if !Known(calls, k) {
      assert ops + [] == ops;
    }
  }

  /**
   In every run, on either backend: the one-time keys in the answers about a device, in
   order, are exactly those of its pushed keys whose fate was to be handed out. So they
   come in push order, and when the device pushes no key twice none is answered twice.
   */
  lemma KeysAnsweredOnceInOrder(redis: bool, calls: seq<Call>, k: Id)
    ensures
      var answers, l := Serve(redis, calls).1, RunOps(OpsOn(calls, k));
      && |answers| == |calls| && l.pushed == PushedBy(calls, k)
      && KeysGiven(calls, answers, k) == With(l, HandedOut)
      && (Distinct(PushedBy(calls, k)) ==> Distinct(KeysGiven(calls, answers, k)))
  {
    hide *;
    GivenAreAnswers(redis, calls, k);
    LedgerHoldsPushes(calls, k);
    HandedOutOnceInOrder(OpsOn(calls, k));
    if Distinct(PushedBy(calls, k)) {
      DistinctKeysHandedOutOnce(OpsOn(calls, k));
    }
  }

  predicate Publishes(c: Call, k: Id) { c.PublishCall? && c.k == k }

  /** Call `j` introduced the signed prekey that the device has published ever since. */
  ghost predicate Introduced(calls: seq<Call>, j: nat, k: Id) {
    && j < |calls| && Publishes(calls[j], k)
    && (forall i :: j <= i < |calls| && Publishes(calls[i], k) ==> calls[i].b.signedPreKey == calls[j].b.signedPreKey)
    && (LastBody(calls[..j], k).Some? ==> LastBody(calls[..j], k).value.signedPreKey != calls[j].b.signedPreKey)
  }

  lemma IntroducedBefore(calls: seq<Call>, j: nat, k: Id)
    requires calls != [] && Introduced(calls[..|calls| - 1], j, k)
    requires
      var c := calls[|calls| - 1];
      Publishes(c, k) ==> c.b.signedPreKey == calls[j].b.signedPreKey
    ensures Introduced(calls, j, k)
  {
    hide LastBody;
    var n := |calls| - 1;
    assert calls[..n][..j] == calls[..j];
    forall i | j <= i < |calls| && Publishes(calls[i], k) ensures calls[i].b.signedPreKey == calls[j].b.signedPreKey {
      assert i < n ==> calls[i] == calls[..n][i];
    }
  }

  lemma {:induction false} LastBodyIs(calls: seq<Call>, j: nat, k: Id)
    requires Introduced(calls, j, k)
    ensures LastBody(calls, k).Some? && LastBody(calls, k).value.signedPreKey == calls[j].b.signedPreKey
  {
    var n := |calls| - 1;
    if !Publishes(calls[n], k) {
      forall i | j <= i < n && Publishes(calls[..n][i], k)
        ensures calls[..n][i].b.signedPreKey == calls[j].b.signedPreKey
      {
        assert calls[..n][i] == calls[i];
      }
      assert calls[..n][..j] == calls[..j];
      LastBodyIs(calls[..n], j, k);
    }
  }

  /**
   In every run the age kept for a device's signed prekey is the time of the publish that
   introduced it, however often it was published again. The one exception is an empty
   key that a device opens with, which the in-memory form does not stamp.
   */
  lemma {:induction false} AgeIsSinceIntroduced(redis: bool, calls: seq<Call>, k: Id) returns (j: nat)
    requires LastBody(calls, k).Some?
    ensures Introduced(calls, j, k) && k in Serve(redis, calls).0
    ensures Serve(redis, calls).0[k].firstSeen ==
      if !redis && calls[j].b.signedPreKey == "" && LastBody(calls[..j], k).None? then 0 else calls[j].now
  {
    var n := |calls| - 1;
    var before, c := calls[..n], calls[n];
    EntryFollowsItsCalls(redis, before, k);
    hide AppendCapped, RunOps, OpsOn;
    if LastBody(before, k).Some? {
      j := AgeIsSinceIntroduced(redis, before, k);
      LastBodyIs(before, j, k);
      assert before[..j] == calls[..j];
      if Publishes(c, k) && c.b.signedPreKey != calls[j].b.signedPreKey {
        j := n;
      } else {
        IntroducedBefore(calls, j, k);
        hide Introduced;
      }
    } else {
      j := n;
    }
  }

  /** A publish answers with the keys then stored, how many of its own are among them, and that age. */
  lemma PublishReports(redis: bool, calls: seq<Call>, k: Id, b: Body, now: int)
    ensures
      var calls' := calls + [PublishCall(k, b, now)];
      var (dir, a) := Serve(redis, calls');
      var own := if |b.preKeys| < MAX_PREKEYS_PER_PUBLISH then |b.preKeys| else MAX_PREKEYS_PER_PUBLISH;
      && |a| == |calls| + 1 && k in dir
      && a[|calls|] == Held(State(|Stored(RunOps(OpsOn(calls', k)))|, own, dir[k].firstSeen))
  {
    var calls' := calls + [PublishCall(k, b, now)];
    assert calls'[..|calls|] == calls;
    OneAnswerEach(redis, calls);
    hide RunOps, OpsOn, LastBody, Step;
    EntryFollowsItsCalls(redis, calls, k);
    EntryFollowsItsCalls(redis, calls', k);
    HandedOutOnceInOrder(OpsOn(calls, k));
    PublishStepIs(redis, Serve(redis, calls).0, k, b, now);
  }

  lemma PublishStepIs(redis: bool, dir: map<Id, Entry>, k: Id, b: Body, now: int)
    requires |Prior(dir, k).oneTime| <= MAX_ONE_TIME_PREKEYS
    ensures
      var (dir', a) := Step(redis, dir, PublishCall(k, b, now));
      var own := if |b.preKeys| < MAX_PREKEYS_PER_PUBLISH then |b.preKeys| else MAX_PREKEYS_PER_PUBLISH;
      k in dir' && a == Held(State(|dir'[k].oneTime|, own, dir'[k].firstSeen))
  {
    hide AppendCapped, Truncated;
    AcceptedIsExact(Prior(dir, k).oneTime, b.preKeys);
    TruncatedSize(b.preKeys);
  }

  lemma TruncatedSize(keys: seq<string>)
    ensures |Truncated(keys)| == if |keys| < MAX_PREKEYS_PER_PUBLISH then |keys| else MAX_PREKEYS_PER_PUBLISH
  {
  }

  // --- the in-memory directory ---

  datatype DeviceKeys = DeviceKeys(entry: Entry, expires: int)

  /** The device index lists exactly the devices that have a bundle, once each. */
  ghost predicate Indexed(bundles: map<Id, DeviceKeys>, devices: map<User, seq<Device>>) {
    && (forall u, d :: (u, d) in bundles <==> u in devices && d in devices[u])
    && (forall u :: u in devices ==> devices[u] != [] && Distinct(devices[u]))
  }

  /** Every list is the stored part of its device's ledger; a forgotten device has
      nothing stored. */
  ghost predicate Accounted(bundles: map<Id, DeviceKeys>, ledgers: map<Id, Ledger>) {
    && (forall k :: k in ledgers ==> Sound(ledgers[k]))
    && (forall k :: k in bundles ==> k in ledgers && bundles[k].entry.oneTime == Stored(ledgers[k]))
    && (forall k :: k in ledgers && k !in bundles ==> Stored(ledgers[k]) == [])
    && (forall k :: k in bundles ==> |bundles[k].entry.oneTime| <= MAX_ONE_TIME_PREKEYS)
  }

  ghost function LedgerOf(ledgers: map<Id, Ledger>, k: Id): Ledger {
    if k in ledgers then ledgers[k] else NoKeys
  }

  lemma RemoveAt(ds: seq<Device>, i: nat)
    requires Distinct(ds) && i < |ds|
    ensures
      var rest := ds[..i] + ds[i + 1..];
      Distinct(rest) && forall x :: x in rest <==> x in ds && x != ds[i]
  {
    var rest := ds[..i] + ds[i + 1..];
    forall x | x in ds && x != ds[i] ensures x in rest {
      var j :| 0 <= j < |ds| && ds[j] == x;
      assert rest[if j < i then j else j - 1] == x;
    }
  }

  lemma IndexedAfterPublish(bundles: map<Id, DeviceKeys>, devices: map<User, seq<Device>>, k: Id, dk: DeviceKeys)
    requires Indexed(bundles, devices)
    ensures k in bundles ==> Indexed(bundles[k := dk], devices)
    ensures k !in bundles ==>
      Indexed(bundles[k := dk], devices[k.0 := (if k.0 in devices then devices[k.0] else []) + [k.1]])
  {
    if k !in bundles && k.0 in devices {
      assert k.1 !in devices[k.0];
    }
  }

  lemma AccountedAfterPublish(bundles: map<Id, DeviceKeys>, ledgers: map<Id, Ledger>, k: Id, preKeys: seq<string>,
                              dk: DeviceKeys)
    requires Accounted(bundles, ledgers)
    requires dk.entry.oneTime == AppendCapped(if k in bundles then bundles[k].entry.oneTime else [], preKeys).0
    ensures Sound(LedgerOf(ledgers, k))
    ensures Accounted(bundles[k := dk], ledgers[k := Push(LedgerOf(ledgers, k), preKeys)])
  {
    hide Push, AppendCapped;
    PushStores(LedgerOf(ledgers, k), preKeys);
  }

  /** A bundle for each of the listed devices that would answer, in order. */
  function LiveBundles(bundles: map<Id, DeviceKeys>, user: User, ids: seq<Device>, now: int): seq<Bundle> {
    if ids == [] then []
    else
      var k := (user, ids[|ids| - 1]);
      LiveBundles(bundles, user, ids[..|ids| - 1], now) +
      if Live(bundles, k, now) then [BundleOf(k, bundles[k].entry)] else []
  }

  /** Each bundle carries its own device's oldest key. */
  ghost predicate AllDue(out: seq<Bundle>, ledgers: map<Id, Ledger>) {
    forall i :: 0 <= i < |out| ==> out[i].id in ledgers && out[i].oneTime == Oldest(ledgers[out[i].id])
  }

  lemma {:induction false} BundlesAreDue(bundles: map<Id, DeviceKeys>, ledgers: map<Id, Ledger>, user: User,
                                         ids: seq<Device>, now: int)
    requires Accounted(bundles, ledgers)
    ensures AllDue(LiveBundles(bundles, user, ids, now), ledgers)
  {
    if ids != [] {
      var k := (user, ids[|ids| - 1]);
      BundlesAreDue(bundles, ledgers, user, ids[..|ids| - 1], now);
      if Live(bundles, k, now) {
        var b := BundleOf(k, bundles[k].entry);
        assert b.id == k && k in ledgers && b.oneTime == Oldest(ledgers[k]);
      }
      hide BundleOf, Oldest, Live, Accounted;
    }
  }

  ghost predicate Has(out: seq<Bundle>, k: Id) { exists i :: 0 <= i < |out| && out[i].id == k }

  /** A listed device is answered for exactly while its entry is there, complete and not lapsed. */
  ghost predicate AnswersLive(out: seq<Bundle>, bundles: map<Id, DeviceKeys>, user: User, ids: seq<Device>, now: int) {
    forall k: Id :: Has(out, k) <==>
      && k.0 == user && k.1 in ids && k in bundles
      && bundles[k].entry.identityKey != "" && now <= bundles[k].expires
  }

  lemma HasNext(out: seq<Bundle>, b: Bundle, k: Id)
    ensures Has(out + [b], k) <==> Has(out, k) || b.id == k
  {
    var more := out + [b];
    if Has(out, k) {
      var i :| 0 <= i < |out| && out[i].id == k;
      assert more[i].id == k;
    }
    if b.id == k {
      assert more[|out|].id == k;
    }
  }

  lemma {:induction false} LiveOnesAnswer(bundles: map<Id, DeviceKeys>, user: User, ids: seq<Device>, now: int)
    ensures AnswersLive(LiveBundles(bundles, user, ids, now), bundles, user, ids, now)
  {
    if ids != [] {
      var before, last := ids[..|ids| - 1], ids[|ids| - 1];
      var out := LiveBundles(bundles, user, before, now);
      LiveOnesAnswer(bundles, user, before, now);
      assert ids == before + [last];
      hide Has;
      var all := LiveBundles(bundles, user, ids, now);
      forall k: Id ensures Has(all, k) <==>
        && k.0 == user && k.1 in ids && k in bundles
        && bundles[k].entry.identityKey != "" && now <= bundles[k].expires
      {
        if Live(bundles, (user, last), now) {
          HasNext(out, BundleOf((user, last), bundles[(user, last)].entry), k);
        } else {
          assert all == out;
        }
      }
    }
  }

  /** What a fetch of each listed device of `user` leaves: live entries popped, lapsed ones gone. */
  function AfterFetches(bundles: map<Id, DeviceKeys>, user: User, ids: seq<Device>, now: int): map<Id, DeviceKeys> {
    map k | k in bundles && !(k.0 == user && k.1 in ids && Lapsed(bundles[k], now)) ::
      if k.0 == user && k.1 in ids && bundles[k].entry.identityKey != "" then
        bundles[k].(entry := Fetched(bundles[k].entry))
      else bundles[k]
  }

  predicate Lapsed(dk: DeviceKeys, now: int) { dk.entry.identityKey != "" && now > dk.expires }

  lemma NoneFetched(bundles: map<Id, DeviceKeys>, user: User, ids: seq<Device>, now: int)
    ensures AfterFetches(bundles, user, ids[..0], now) == bundles && LiveBundles(bundles, user, ids[..0], now) == []
  {
  }

  lemma IndexedIsDistinct(bundles: map<Id, DeviceKeys>, devices: map<User, seq<Device>>, user: User)
    requires Indexed(bundles, devices)
    ensures Distinct(if user in devices then devices[user] else [])
  {
  }

  /** The next device listed is still as it was, and answers if it is live. */
  lemma NextFetched(bundles: map<Id, DeviceKeys>, user: User, ids: seq<Device>, i: nat, now: int)
    requires i < |ids| && Distinct(ids)
    ensures
      var k, before := (user, ids[i]), AfterFetches(bundles, user, ids[..i], now);
      && (k in before <==> k in bundles) && (k in before ==> before[k] == bundles[k])
      && LiveBundles(bundles, user, ids[..i + 1], now) ==
           LiveBundles(bundles, user, ids[..i], now) +
           if k in bundles && bundles[k].entry.identityKey != "" && now <= bundles[k].expires
           then [BundleOf(k, bundles[k].entry)] else []
  {
    hide Fetched, BundleOf;
    assert ids[..i + 1][..i] == ids[..i];
    assert ids[i] !in ids[..i];
  }

  lemma AfterNext(bundles: map<Id, DeviceKeys>, after: map<Id, DeviceKeys>, user: User, ids: seq<Device>, i: nat,
                  now: int)
    requires i < |ids| && Distinct(ids)
    requires
      var k := (user, ids[i]);
      var before := AfterFetches(bundles, user, ids[..i], now);
      after == if k !in before || before[k].entry.identityKey == "" then before
               else if now > before[k].expires then before - {k}
               else before[k := before[k].(entry := Fetched(before[k].entry))]
    ensures after == AfterFetches(bundles, user, ids[..i + 1], now)
  {
    hide Fetched;
    assert ids[..i + 1] == ids[..i] + [ids[i]];
    assert ids[i] !in ids[..i];
  }

  function Entries(bundles: map<Id, DeviceKeys>): map<Id, Entry> { map k | k in bundles :: bundles[k].entry }

  lemma EntriesPut(bundles: map<Id, DeviceKeys>, k: Id, dk: DeviceKeys)
    ensures Entries(bundles[k := dk]) == Entries(bundles)[k := dk.entry]
  {
  }

  class MemoryDir {
    var bundles: map<Id, DeviceKeys>
    var devices: map<User, seq<Device>>
    ghost var ledgers: map<Id, Ledger>

    ghost predicate Valid()
      reads this
    {
      Indexed(bundles, devices) && Accounted(bundles, ledgers)
    }

    /** The entries held, whatever their age. */
    ghost function Dir(): map<Id, Entry>
      reads this
    {
      Entries(bundles)
    }

    constructor ()
      ensures Valid() && bundles == map[] && devices == map[] && ledgers == map[]
    {
      bundles, devices, ledgers := map[], map[], map[];
    }

    method Publish(user: User, device: Device, b: Body, now: int) returns (st: State)
      requires Valid()
      modifies this
      ensures Valid()
      ensures
        var k := (user, device);
        var prior := if k in old(bundles) then old(bundles)[k].entry else NoEntry;
        && bundles == old(bundles)[k := DeviceKeys(Published(prior, b, now), now + ENTRY_TTL)]
        && st == PublishState(prior, b, now)
        && ledgers == old(ledgers)[k := Push(LedgerOf(old(ledgers), k), b.preKeys)]
      ensures (Dir(), Held(st)) == Step(false, old(Dir()), PublishCall((user, device), b, now))
    {
      hide Indexed, Accounted, AppendCapped, Push;
      var k := (user, device);
      var prior := NoEntry;
      ghost var was := if k in bundles then bundles[k].entry else NoEntry;
      IndexedAfterPublish(bundles, devices, k, DeviceKeys(Published(was, b, now), now + ENTRY_TTL));
      if k in bundles {
        prior := bundles[k].entry;
      } else {
        var known := if user in devices then devices[user] else [];
        devices := devices[user := known + [device]];
      }
      var firstSeen := prior.firstSeen;
      if prior.signedPreKey != b.signedPreKey {
        firstSeen := now;
      }
      var (keys, accepted) := AppendCapped(prior.oneTime, b.preKeys);
      ghost var dk := DeviceKeys(Published(prior, b, now), now + ENTRY_TTL);
      AccountedAfterPublish(bundles, ledgers, k, b.preKeys, dk);
      ledgers := ledgers[k := Push(LedgerOf(ledgers, k), b.preKeys)];
      bundles := bundles[k := DeviceKeys(
        Entry(b.identityKey, b.signingKey, b.signedPreKey, b.signature, firstSeen, keys), now + ENTRY_TTL)];
      st := State(|keys|, accepted, firstSeen);
      EntriesPut(old(bundles), k, dk);
    }

    /** forgetLocked: the bundle and the device's place in the index. */
    method Forget(user: User, device: Device)
      requires Valid() && (user, device) in bundles
      modifies this
      ensures Valid()
      ensures bundles == old(bundles) - {(user, device)}
      ensures ledgers == old(ledgers)[(user, device) := Drop(old(ledgers)[(user, device)])]
    {
      bundles := bundles - {(user, device)};
      ledgers := ledgers[(user, device) := Drop(ledgers[(user, device)])];
      var known := devices[user];
      var i := 0;
      while known[i] != device
        invariant 0 <= i < |known| && device !in known[..i]
        decreases |known| - i
      {
        assert known == known[..i + 1] + known[i + 1..];
        i := i + 1;
      }
      var rest := known[..i] + known[i + 1..];
      RemoveAt(known, i);
      if rest == [] {
        devices := devices - {user};
      } else {
        devices := devices[user := rest];
      }
    }

    /** Fetch pops one prekey, unless the device is unknown or its entry has lapsed. */
    method Fetch(user: User, device: Device, now: int) returns (r: Option<Bundle>)
      requires Valid()
      modifies this
      ensures Valid()
      ensures
        var k := (user, device);
        if k !in old(bundles) || old(bundles)[k].entry.identityKey == "" then
          r == None && bundles == old(bundles) && devices == old(devices) && ledgers == old(ledgers)
        else if now > old(bundles)[k].expires then
          && r == None && bundles == old(bundles) - {k}
          && ledgers == old(ledgers)[k := Drop(old(ledgers)[k])]
        else
          && r == Some(BundleOf(k, old(bundles)[k].entry))
          && bundles == old(bundles)[k := old(bundles)[k].(entry := Fetched(old(bundles)[k].entry))]
          && devices == old(devices)
          && ledgers == old(ledgers)[k := Pop(old(ledgers)[k])]
      ensures r.Some? ==>
        && (user, device) in old(ledgers)
        && r.value.oneTime == Oldest(old(ledgers)[(user, device)])
      ensures ((user, device) in old(bundles) ==> now <= old(bundles)[(user, device)].expires) ==>
        (Dir(), Gave(r)) == Step(false, old(Dir()), FetchCall((user, device), now))
    {
      var k := (user, device);
      if k !in bundles || bundles[k].entry.identityKey == "" {
        return None;
      }
      var e := bundles[k].entry;
      if now > bundles[k].expires {
        Forget(user, device);
        return None;
      }
      r := Some(BundleOf(k, e));
      EntriesPut(bundles, k, bundles[k].(entry := Fetched(e)));
      assert e.oneTime == [] ==> bundles[k := bundles[k].(entry := Fetched(e))] == bundles;
      if |e.oneTime| > 0 {
        PopStores(ledgers[k]);
        ledgers := ledgers[k := Pop(ledgers[k])];
        bundles := bundles[k := bundles[k].(entry := e.(oneTime := e.oneTime[1..]))];
      }
    }

    /** FetchAll: one bundle for each indexed device that is live, in index order. */
    method FetchAll(user: User, now: int) returns (out: seq<Bundle>)
      requires Valid()
      modifies this
      ensures Valid()
      ensures
        var ids := if user in old(devices) then old(devices)[user] else [];
        && out == LiveBundles(old(bundles), user, ids, now)
        && bundles == AfterFetches(old(bundles), user, ids, now)
      ensures AllDue(out, old(ledgers))
      ensures AnswersLive(out, old(bundles), user, if user in old(devices) then old(devices)[user] else [], now)
    {
      hide Accounted, Indexed, Pop, Drop, AfterFetches, LiveBundles, Step, Entries, Fetched, BundleOf;
      hide AllDue, AnswersLive, Oldest, Distinct;
      var ids := if user in devices then devices[user] else [];
      BundlesAreDue(bundles, ledgers, user, ids, now);
      LiveOnesAnswer(bundles, user, ids, now);
      assert Distinct(ids) by { IndexedIsDistinct(bundles, devices, user); }
      out := [];
      NoneFetched(bundles, user, ids, now);
      for i := 0 to |ids|
        invariant Valid()
        invariant bundles == AfterFetches(old(bundles), user, ids[..i], now)
        invariant out == LiveBundles(old(bundles), user, ids[..i], now)
      {
        NextFetched(old(bundles), user, ids, i, now);
        var r := Fetch(user, ids[i], now);
        AfterNext(old(bundles), bundles, user, ids, i, now);
        if r.Some? {
          out := out + [r.value];
        }
      }
      assert ids[..|ids|] == ids;
    }
  }

  /** A fetch at `now` would answer with a bundle. */
  predicate Live(bundles: map<Id, DeviceKeys>, k: Id, now: int) {
    k in bundles && bundles[k].entry.identityKey != "" && now <= bundles[k].expires
  }

  // --- the Redis directory, expiry set aside ---

  datatype Hash = Hash(identityKey: string, signingKey: string, signedPreKey: string, signature: string, signedAt: int)

  function EntryFrom(h: Hash, keys: seq<string>): Entry {
    Entry(h.identityKey, h.signingKey, h.signedPreKey, h.signature, h.signedAt, keys)
  }

  function KeysIn(lists: map<Id, seq<string>>, k: Id): seq<string> { if k in lists then lists[k] else [] }

  /** The entries that the two kinds of keys make up together. */
  function Together(hashes: map<Id, Hash>, lists: map<Id, seq<string>>): map<Id, Entry> {
    map k | k in hashes :: EntryFrom(hashes[k], KeysIn(lists, k))
  }

  lemma TogetherAt(hashes: map<Id, Hash>, lists: map<Id, seq<string>>, k: Id)
    ensures k in Together(hashes, lists) <==> k in hashes
    ensures k in hashes ==> Together(hashes, lists)[k] == EntryFrom(hashes[k], KeysIn(lists, k))
  {
  }

  lemma TogetherPut(hashes: map<Id, Hash>, lists: map<Id, seq<string>>, k: Id, h: Hash, lists': map<Id, seq<string>>)
    requires forall j :: j != k ==> KeysIn(lists', j) == KeysIn(lists, j)
    ensures Together(hashes[k := h], lists') == Together(hashes, lists)[k := EntryFrom(h, KeysIn(lists', k))]
  {
  }

  /** Only known devices have lists, and none is empty or over the ceiling. */
  ghost predicate Listed(hashes: map<Id, Hash>, lists: map<Id, seq<string>>) {
    forall k :: k in lists ==> k in hashes && 0 < |lists[k]| <= MAX_ONE_TIME_PREKEYS
  }

  ghost predicate DevicesKnown(hashes: map<Id, Hash>, members: map<User, set<Device>>) {
    forall u, d :: (u, d) in hashes <==> u in members && d in members[u]
  }

  lemma KnownAfterPublish(hashes: map<Id, Hash>, members: map<User, set<Device>>, k: Id, h: Hash)
    requires DevicesKnown(hashes, members)
    ensures DevicesKnown(hashes[k := h], members[k.0 := (if k.0 in members then members[k.0] else {}) + {k.1}])
  {
  }

  /** What the transaction's replies add up to. */
  lemma RedisPublishIs(dir: map<Id, Entry>, k: Id, b: Body, now: int, h: Hash, list: seq<string>, st: State)
    requires
      var firstSeen := if k in dir && dir[k].signedPreKey == b.signedPreKey then dir[k].firstSeen else now;
      && h == Hash(b.identityKey, b.signingKey, b.signedPreKey, b.signature, firstSeen)
      && list == Newest(Prior(dir, k).oneTime + Truncated(b.preKeys))
      && st == State(|list|, Survivors(|Truncated(b.preKeys)|, |list|), firstSeen)
    ensures Step(true, dir, PublishCall(k, b, now)) == (dir[k := EntryFrom(h, list)], Held(st))
  {
  }

  class RedisDir {
    var hashes: map<Id, Hash>
    var lists: map<Id, seq<string>>       // an empty list is an absent key
    var members: map<User, set<Device>>

    ghost predicate Valid()
      reads this
    {
      Listed(hashes, lists) && DevicesKnown(hashes, members)
    }

    ghost function Dir(): map<Id, Entry>
      reads this
    {
      Together(hashes, lists)
    }

    constructor ()
      ensures Valid() && hashes == map[] && lists == map[] && members == map[]
    {
      hashes, lists, members := map[], map[], map[];
    }

    /**
     The same entry and the same answer as the in-memory form, except for the age of
     an empty signed prekey on a device's very first publish.
     */
    method Publish(user: User, device: Device, b: Body, now: int) returns (st: State)
      requires Valid()
      modifies this
      ensures Valid()
      ensures (Dir(), Held(st)) == Step(true, old(Dir()), PublishCall((user, device), b, now))
    {
      hide DevicesKnown, Step, Together;
      var k := (user, device);
      var firstSeen := now;
      if k in hashes && hashes[k].signedPreKey == b.signedPreKey {
        firstSeen := hashes[k].signedAt;
      }
      var keys := if |b.preKeys| > MAX_PREKEYS_PER_PUBLISH then b.preKeys[..MAX_PREKEYS_PER_PUBLISH] else b.preKeys;
      var was := KeysIn(lists, k);
      var h := Hash(b.identityKey, b.signingKey, b.signedPreKey, b.signature, firstSeen);
      KnownAfterPublish(hashes, members, k, h);
      hashes := hashes[k := h];
      members := members[user := (if user in members then members[user] else {}) + {device}];
      if |keys| > 0 {
        lists := lists[k := Newest(was + keys)];
      } else {
        assert was + keys == was;
      }
      var left := |KeysIn(lists, k)|;
      st := State(left, Survivors(|keys|, left), firstSeen);
      TogetherPut(old(hashes), old(lists), k, h, lists);
      TogetherAt(old(hashes), old(lists), k);
      RedisPublishIs(Together(old(hashes), old(lists)), k, b, now, h, KeysIn(lists, k), st);
    }

    method Fetch(user: User, device: Device) returns (r: Option<Bundle>)
      requires Valid()
      modifies this
      ensures Valid()
      ensures (Dir(), Gave(r)) == FetchStep(old(Dir()), (user, device))
      ensures r.Some? ==>
        var keys := KeysIn(old(lists), (user, device));
        r.value.oneTime == if keys == [] then None else Some(keys[0])
    {
      var k := (user, device);
      if k !in hashes || hashes[k].identityKey == "" {
        return None;
      }
      var keys := KeysIn(lists, k);
      r := Some(BundleOf(k, EntryFrom(hashes[k], keys)));
      if |keys| > 0 {
        lists := if |keys| == 1 then lists - {k} else lists[k := keys[1..]];
      }
      TogetherPut(hashes, old(lists), k, hashes[k], lists);
      assert hashes[k := hashes[k]] == hashes;
      assert KeysIn(lists, k) == if keys == [] then [] else keys[1..];
      assert Fetched(EntryFrom(hashes[k], keys)) == EntryFrom(hashes[k], KeysIn(lists, k));
      hide Together;
    }
  }

  // --- the two backends side by side ---

  lemma StepsAgreeExactlyWhen(dir: map<Id, Entry>, c: Call)
    ensures Step(true, dir, c) == Step(false, dir, c) <==> !Differs(dir, c)
    ensures Step(true, dir, c).1 == Step(false, dir, c).1 <==> !Differs(dir, c)
  {
    if Differs(dir, c) {
      assert Step(true, dir, c).1.st.firstSeen != Step(false, dir, c).1.st.firstSeen;
    }
  }

  /** No device opens with an empty signed prekey. */
  ghost predicate NeverDiffer(calls: seq<Call>) {
    forall i :: 0 <= i < |calls| ==> !Differs(Serve(false, calls[..i]).0, calls[i])
  }

  lemma NeverDifferNext(calls: seq<Call>)
    requires calls != []
    ensures
      var n := |calls| - 1;
      NeverDiffer(calls) <==> NeverDiffer(calls[..n]) && !Differs(Serve(false, calls[..n]).0, calls[n])
  {
    hide Serve, Differs;
    var n := |calls| - 1;
    forall i | 0 <= i < n ensures calls[..n][..i] == calls[..i] {}
  }

  /**
   With expiry set aside, both backends give the same answers to a run of publishes and
   fetches if and only if no device opens with an empty signed prekey, and then they
   hold the same entries.
   */
  lemma {:induction false} BackendsAgree(calls: seq<Call>)
    ensures Serve(true, calls).1 == Serve(false, calls).1 <==> NeverDiffer(calls)
    ensures NeverDiffer(calls) ==> Serve(true, calls) == Serve(false, calls)
  {
    if calls != [] {
      var n := |calls| - 1;
      BackendsAgree(calls[..n]);
      NeverDifferNext(calls);
      StepsAgreeExactlyWhen(Serve(false, calls[..n]).0, calls[n]);
      OneAnswerEach(true, calls[..n]);
      OneAnswerEach(false, calls[..n]);
      hide Step, Differs, NeverDiffer;
      var s, t := Serve(true, calls).1, Serve(false, calls).1;
      assert s[..n] == Serve(true, calls[..n]).1 && t[..n] == Serve(false, calls[..n]).1;
    }
  }

  /** A run short enough that no entry lapses in it. */
  predicate WithinOneTtl(calls: seq<Call>, from: int) {
    forall i :: 0 <= i < |calls| ==> from <= calls[i].now <= from + ENTRY_TTL
  }

  method ServeMemory(calls: seq<Call>, from: int) returns (answers: seq<Answer>)
    requires WithinOneTtl(calls, from)
    ensures answers == Serve(false, calls).1
  {
    var dir := new MemoryDir();
    answers := [];
    hide Step, Indexed, Accounted, Published, PublishState, Push, Pop, Drop;
    assert dir.Dir() == map[];
    for i := 0 to |calls|
      invariant fresh(dir) && dir.Valid()
      invariant (dir.Dir(), answers) == Serve(false, calls[..i])
      invariant forall k :: k in dir.bundles ==> dir.bundles[k].expires >= from + ENTRY_TTL
    {
      assert calls[..i + 1][..i] == calls[..i];
      match calls[i] {
        case PublishCall(k, b, now) =>
          var st := dir.Publish(k.0, k.1, b, now);
          answers := answers + [Held(st)];
        case FetchCall(k, now) =>
          var r := dir.Fetch(k.0, k.1, now);
          answers := answers + [Gave(r)];
      }
    }
    assert calls[..|calls|] == calls;
  }

  method ServeRedis(calls: seq<Call>) returns (answers: seq<Answer>)
    ensures answers == Serve(true, calls).1
  {
    var dir := new RedisDir();
    answers := [];
    hide Published, PublishState, FetchStep, RedisFirstSeen;
    assert dir.Dir() == map[];
    for i := 0 to |calls|
      invariant fresh(dir) && dir.Valid()
      invariant (dir.Dir(), answers) == Serve(true, calls[..i])
    {
      assert calls[..i + 1][..i] == calls[..i];
      match calls[i] {
        case PublishCall(k, b, now) =>
          var st := dir.Publish(k.0, k.1, b, now);
          answers := answers + [Held(st)];
        case FetchCall(k, now) =>
          var r := dir.Fetch(k.0, k.1);
          answers := answers + [Gave(r)];
      }
    }
    assert calls[..|calls|] == calls;
  }

  /** The two implementations, driven by the same calls, give the same answers exactly then. */
  method CompareBackends(calls: seq<Call>, from: int) returns (memory: seq<Answer>, redis: seq<Answer>)
    requires WithinOneTtl(calls, from)
    ensures |memory| == |redis| == |calls|
    ensures memory == redis <==> NeverDiffer(calls)
    ensures forall k: Id ::
      KeysGiven(calls, memory, k) == KeysGiven(calls, redis, k) == With(RunOps(OpsOn(calls, k)), HandedOut)
  {
    memory := ServeMemory(calls, from);
    redis := ServeRedis(calls);
    OneAnswerEach(false, calls);
    OneAnswerEach(true, calls);
    BackendsAgree(calls);
    forall k: Id
      ensures KeysGiven(calls, memory, k) == KeysGiven(calls, redis, k) == With(RunOps(OpsOn(calls, k)), HandedOut)
    {
      KeysAnsweredOnceInOrder(false, calls, k);
      KeysAnsweredOnceInOrder(true, calls, k);
    }
  }

  lemma {:induction false} OneAnswerEach(redis: bool, calls: seq<Call>)
    ensures |Serve(redis, calls).1| == |calls|
  {
    if calls != [] {
      OneAnswerEach(redis, calls[..|calls| - 1]);
    }
  }
}
