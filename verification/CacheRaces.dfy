/**
 The chat authorization cache under concurrency. Role questions are cut at their
 cache and store accesses; membership changes (from this node or any other),
 invalidations and sweeps happen between any two of them.
 */
module CacheRaces {
  import opened Wrappers
  import ChatService

  type ChatId = string
  type User = string
  type Role = ChatService.Role
  type Roles = ChatService.Roles

  const TTL: int := ChatService.AUTH_CACHE_TTL

  /** The membership store from an instant on. */
  datatype Version = Version(from: int, chats: map<ChatId, Roles>)

  /** One read of the store, as history: by which call, since when that call's load
      was under way, and what it saw when. */
  datatype Reading = Reading(loader: nat, began: int, ver: nat, readAt: int)

  /** `loads` is the history of all reads of the store, and `made` of the entries and
      memos built from them: from which read, and when. */
  datatype World = World(now: int, log: seq<Version>, loads: set<(ChatId, Reading)>, made: set<(Reading, int)>)

  /** authEntry: `roles` is None for a chat too large to hold. */
  datatype Entry = Entry(roles: Option<Roles>, expires: int, madeAt: int, src: Reading)

  /** memberRole: one memoized (chat, user) answer. */
  datatype Memo = Memo(role: Option<Role>, expires: int, madeAt: int, src: Reading)

  datatype Question = Question(ch: ChatId, u: User, start: int)

  datatype Call =
    | Asked(q: Question)                                  // authView not consulted yet
    | Loading(q: Question, began: int)                    // cache miss
    | Listed(q: Question, roles: Option<Roles>, src: Reading)
    | Built(q: Question, e: Entry)                        // entry built, not stored
    | Viewing(q: Question, e: Entry, checked: int, own: bool)
    | Probing(q: Question, began: int)                    // large chat, memo miss
    | Probed(q: Question, role: Option<Role>, src: Reading)
    | BuiltMemo(q: Question, m: Memo)
    | Answered(q: Question, role: Option<Role>, src: Reading, madeAt: int, checked: int, own: bool)
    | NoSuchChat(q: Question)

  datatype State = State(
    w: World,
    cache: map<ChatId, Entry>,
    memo: map<(ChatId, User), Memo>,
    calls: map<nat, Call>)

  function Init(): State { State(World(0, [Version(0, map[])], {}, {}), map[], map[], map[]) }

  datatype Step =
    | Tick(ms: nat)
    | Mutate(chats: map<ChatId, Roles>)                     // any change, by anybody
    | Forget(views: set<ChatId>, keys: set<(ChatId, User)>)   // invalidation, expiry, eviction
    | Begin(id: nat, ch: ChatId, u: User)
    | Next(id: nat)

  function Latest(w: World): (ver: nat)
    requires w.log != []
    ensures ver < |w.log|
  {
    |w.log| - 1
  }

  /** The stage reached by the call's next access. */
  function Outcome(s: State, id: nat, c: Call): Call
    requires s.w.log != []
  {
    var now, ver := s.w.now, Latest(s.w);
    var chats := s.w.log[ver].chats;
    match c
    case Asked(q) =>
      if q.ch in s.cache && now < s.cache[q.ch].expires then Viewing(q, s.cache[q.ch], now, false)
      else Loading(q, now)
    case Loading(q, began) =>
      if q.ch !in chats then NoSuchChat(q)
      else Listed(q, ChatService.View(chats[q.ch]), Reading(id, began, ver, now))
    case Listed(q, roles, src) => Built(q, Entry(roles, now + TTL, now, src))
    case Built(q, e) => Viewing(q, e, now, true)
    case Viewing(q, e, checked, own) =>
      if e.roles.Some? then Answered(q, ChatService.RoleIn(e.roles.value, q.u), e.src, e.madeAt, checked, own)
      else if (q.ch, q.u) in s.memo && now < s.memo[(q.ch, q.u)].expires then
        var m := s.memo[(q.ch, q.u)];
        Answered(q, m.role, m.src, m.madeAt, now, false)
      else Probing(q, now)
    case Probing(q, began) =>
      Probed(q, if q.ch in chats then ChatService.RoleIn(chats[q.ch], q.u) else None, Reading(id, began, ver, now))
    case Probed(q, role, src) => BuiltMemo(q, Memo(role, now + TTL, now, src))
    case BuiltMemo(q, m) => Answered(q, m.role, m.src, m.madeAt, now, true)
    case _ => c
  }

  /** The history a call's access from stage `c` to stage `c'` leaves. */
  function Noted(w: World, c: Call, c': Call): World {
    if c'.Listed? || c'.Probed? then w.(loads := w.loads + {(c'.q.ch, c'.src)})
    else if c.Listed? && c'.Built? then w.(made := w.made + {(c'.e.src, c'.e.madeAt)})
    else if c.Probed? && c'.BuiltMemo? then w.(made := w.made + {(c'.m.src, c'.m.madeAt)})
    else w
  }

  function Apply(s: State, step: Step): State
    requires s.w.log != []
  {
    match step
    case Tick(ms) => s.(w := s.w.(now := s.w.now + ms))
    case Mutate(chats) => s.(w := s.w.(log := s.w.log + [Version(s.w.now, chats)]))
    case Forget(views, keys) => s.(cache := s.cache - views, memo := s.memo - keys)
    case Begin(id, ch, u) =>
      if id in s.calls then s else s.(calls := s.calls[id := Asked(Question(ch, u, s.w.now))])
    case Next(id) =>
      if id !in s.calls then s
      else
        var c := s.calls[id];
        var c' := Outcome(s, id, c);
        State(Noted(s.w, c, c'),
              if c.Built? then s.cache[c.q.ch := c.e] else s.cache,
              if c.BuiltMemo? then s.memo[(c.q.ch, c.q.u) := c.m] else s.memo,
              s.calls[id := c'])
  }

  function Run(steps: seq<Step>): (s: State)
    ensures s.w.log != []
  {
    if steps == [] then Init()
    else Apply(Run(steps[..|steps| - 1]), steps[|steps| - 1])
  }

  // --- what every step keeps ---

  /** Version `i` was the store's content at time `t`. */
  ghost predicate InForce(w: World, i: nat, t: int) {
    && i < |w.log|
    && w.log[i].from <= t <= w.now
    && (i + 1 < |w.log| ==> t <= w.log[i + 1].from)
  }

  ghost predicate Clock(w: World) {
    && w.log != []
    && forall i :: 0 <= i < |w.log| ==> w.log[i].from <= w.now
  }

  /** A read that took place, no earlier than its load began. */
  ghost predicate Read(w: World, ch: ChatId, src: Reading) {
    (ch, src) in w.loads && InForce(w, src.ver, src.readAt) && src.began <= src.readAt
  }

  /** The role question had this answer at the instant it was read. */
  ghost predicate TrueWhenRead(w: World, ch: ChatId, u: User, role: Option<Role>, src: Reading) {
    && Read(w, ch, src)
    && var chats := w.log[src.ver].chats;
       role == if ch in chats then ChatService.RoleIn(chats[ch], u) else None
  }

  ghost predicate Snapshot(w: World, ch: ChatId, roles: Option<Roles>, src: Reading) {
    && Read(w, ch, src)
    && (roles.Some? ==> ch in w.log[src.ver].chats && roles.value == w.log[src.ver].chats[ch])
  }

  /** Built from that read, after it and no later than now. */
  ghost predicate Made(w: World, src: Reading, madeAt: int, expires: int) {
    (src, madeAt) in w.made && src.readAt <= madeAt <= w.now && expires == madeAt + TTL
  }

  ghost predicate EntryOk(w: World, ch: ChatId, e: Entry) {
    Snapshot(w, ch, e.roles, e.src) && Made(w, e.src, e.madeAt, e.expires)
  }

  ghost predicate MemoOk(w: World, ch: ChatId, u: User, m: Memo) {
    TrueWhenRead(w, ch, u, m.role, m.src) && Made(w, m.src, m.madeAt, m.expires)
  }

  ghost predicate CallOk(w: World, c: Call) {
    match c
    case Asked(q) => q.start <= w.now
    case Loading(q, began) => q.start <= began <= w.now
    case Listed(q, roles, src) => q.start <= src.began && Snapshot(w, q.ch, roles, src)
    case Built(q, e) => q.start <= e.src.began && EntryOk(w, q.ch, e)
    case Viewing(q, e, checked, own) =>
      q.start <= checked <= w.now && EntryOk(w, q.ch, e) && (own ==>
        q.start <= e.src.began) && (!own ==> checked < e.expires)
    case Probing(q, began) => q.start <= began <= w.now
    case Probed(q, role, src) => q.start <= src.began && TrueWhenRead(w, q.ch, q.u, role, src)
    case BuiltMemo(q, m) => q.start <= m.src.began && MemoOk(w, q.ch, q.u, m)
    case Answered(q, role, src, madeAt, checked, own) =>
      && TrueWhenRead(w, q.ch, q.u, role, src)
      && Made(w, src, madeAt, madeAt + TTL)
      && q.start <= checked <= w.now
      && (own ==> q.start <= src.began)
      && (!own ==> checked < madeAt + TTL)
    case NoSuchChat(q) => true
  }

  /** Every load was made by a call about that chat, which began it after it started. */
  ghost predicate Loaders(loads: set<(ChatId, Reading)>, calls: map<nat, Call>) {
    forall ch, r :: (ch, r) in loads ==>
      r.loader in calls && calls[r.loader].q.ch == ch && calls[r.loader].q.start <= r.began
  }

  /** The call can have built something at `t`: it has, and was no further by then. */
  predicate BuiltBy(c: Call, t: int) {
    match c
    case Built(q, e) => t <= e.madeAt
    case Viewing(q, e, checked, own) => t <= checked
    case Probing(q, began) => t <= began
    case Probed(q, role, src) => t <= src.readAt
    case BuiltMemo(q, m) => t <= m.madeAt
    case Answered(q, role, src, madeAt, checked, own) => t <= checked
    case _ => false
  }

  /** Whatever was built was built by the call that had read, before it answered. */
  ghost predicate Builders(made: set<(Reading, int)>, calls: map<nat, Call>) {
    forall r, t :: (r, t) in made ==> r.loader in calls && BuiltBy(calls[r.loader], t)
  }

  /** What call `id` has in hand from a read of its own. */
  predicate OwnRead(id: nat, c: Call) {
    match c
    case Listed(q, roles, src) => src.loader == id
    case Built(q, e) => e.src.loader == id
    case Viewing(q, e, checked, own) => own ==> e.src.loader == id
    case Probed(q, role, src) => src.loader == id
    case BuiltMemo(q, m) => m.src.loader == id
    case Answered(q, role, src, madeAt, checked, own) => own ==> src.loader == id
    case _ => true
  }

  ghost predicate OwnReads(calls: map<nat, Call>) { forall id :: id in calls ==> OwnRead(id, calls[id]) }

  ghost predicate CacheOk(w: World, cache: map<ChatId, Entry>) {
    forall ch :: ch in cache ==> EntryOk(w, ch, cache[ch])
  }

  ghost predicate MemosOk(w: World, memo: map<(ChatId, User), Memo>) {
    forall ch, u :: (ch, u) in memo ==> MemoOk(w, ch, u, memo[(ch, u)])
  }

  ghost predicate CallsOk(w: World, calls: map<nat, Call>) { forall id :: id in calls ==> CallOk(w, calls[id]) }

  ghost predicate Histories(w: World, calls: map<nat, Call>) {
    Loaders(w.loads, calls) && Builders(w.made, calls) && OwnReads(calls)
  }

  ghost predicate Inv(s: State) {
    Clock(s.w) && CacheOk(s.w, s.cache) && MemosOk(s.w, s.memo) && CallsOk(s.w, s.calls) && Histories(s.w, s.calls)
  }

  /** Time passes and versions are added; nothing that was true of the past changes. */
  ghost predicate Later(w: World, w': World) {
    && w.now <= w'.now
    && w.log <= w'.log
    && w.loads <= w'.loads && w.made <= w'.made
    && (|w.log| < |w'.log| ==> w.now <= w'.log[|w.log|].from)
  }

  lemma StillRead(w: World, w': World, ch: ChatId, src: Reading)
    requires Later(w, w') && Read(w, ch, src)
    ensures Read(w', ch, src) && w'.log[src.ver] == w.log[src.ver]
  {
  }

  lemma CallStays(w: World, w': World, c: Call)
    requires Later(w, w') && CallOk(w, c)
    ensures CallOk(w', c)
  {
    NowRises(w, w');
    hide Later, Read, InForce;
    match c
    case Listed(q, roles, src) => StillRead(w, w', q.ch, src);
    case Built(q, e) => StillRead(w, w', q.ch, e.src);
    case Viewing(q, e, _, _) => StillRead(w, w', q.ch, e.src);
    case Probed(q, role, src) => StillRead(w, w', q.ch, src);
    case BuiltMemo(q, m) => StillRead(w, w', q.ch, m.src);
    case Answered(q, role, src, _, _, _) => StillRead(w, w', q.ch, src);
    case _ =>
  }

  lemma NowRises(w: World, w': World)
    requires Later(w, w')
    ensures w.now <= w'.now && w.made <= w'.made
  {
  }

  /** Whatever else changes, what was cached and asked stays right in a later world. */
  lemma WorldMoves(s: State, w': World)
    requires Inv(s) && Later(s.w, w')
    ensures CacheOk(w', s.cache) && MemosOk(w', s.memo) && CallsOk(w', s.calls)
  {
    NowRises(s.w, w');
    hide Read, InForce, CallOk, Later, Histories;
    forall ch | ch in s.cache ensures EntryOk(w', ch, s.cache[ch]) {
      StillRead(s.w, w', ch, s.cache[ch].src);
    }
    forall ch, u | (ch, u) in s.memo ensures MemoOk(w', ch, u, s.memo[(ch, u)]) {
      StillRead(s.w, w', ch, s.memo[(ch, u)].src);
    }
    forall id | id in s.calls ensures CallOk(w', s.calls[id]) {
      CallStays(s.w, w', s.calls[id]);
    }
  }

  /** The world after a call's next access. */
  function WorldAfter(s: State, id: nat): World
    requires s.w.log != [] && id in s.calls
  {
    Apply(s, Next(id)).w
  }

  lemma OutcomeIsOk(s: State, id: nat)
    requires Inv(s) && id in s.calls
    ensures CallOk(WorldAfter(s, id), Outcome(s, id, s.calls[id]))
    ensures Outcome(s, id, s.calls[id]).q == s.calls[id].q
  {
    var c := s.calls[id];
    assert CallOk(s.w, c);
    assert Clock(s.w) && CacheOk(s.w, s.cache) && MemosOk(s.w, s.memo);
    hide Inv, CallOk, CacheOk, MemosOk, Clock;
    if c.Loading? || c.Probing? {
      ReadIsOk(s, id, c);
    } else if c.Listed? || c.Probed? {
      BuildIsOk(s, id, c);
    } else {
      LookIsOk(s, id, c);
    }
  }

  lemma BuildIsOk(s: State, id: nat, c: Call)
    requires Clock(s.w) && CallOk(s.w, c) && (c.Listed? || c.Probed?) && id in s.calls && s.calls[id] == c
    ensures CallOk(WorldAfter(s, id), Outcome(s, id, c))
  {
    var w' := WorldAfter(s, id);
    assert Later(s.w, w');
    StillRead(s.w, w', c.q.ch, c.src);
    assert c.src.readAt <= w'.now;
    hide Read, InForce, Later, Clock;
  }

  lemma LookIsOk(s: State, id: nat, c: Call)
    requires Clock(s.w) && CacheOk(s.w, s.cache) && MemosOk(s.w, s.memo)
    requires CallOk(s.w, c) && id in s.calls && s.calls[id] == c
    requires !c.Loading? && !c.Probing? && !c.Listed? && !c.Probed?
    ensures CallOk(WorldAfter(s, id), Outcome(s, id, c))
  {
    assert WorldAfter(s, id) == s.w;
    if c.Asked? && c.q.ch in s.cache {
      assert EntryOk(s.w, c.q.ch, s.cache[c.q.ch]);
    }
    if c.Viewing? && (c.q.ch, c.q.u) in s.memo {
      assert MemoOk(s.w, c.q.ch, c.q.u, s.memo[(c.q.ch, c.q.u)]);
    }
    hide Read, Clock, InForce, CacheOk, MemosOk;
  }

  lemma ReadIsOk(s: State, id: nat, c: Call)
    requires Clock(s.w) && CallOk(s.w, c)
    requires (c.Loading? || c.Probing?) && id in s.calls && s.calls[id] == c
    ensures CallOk(WorldAfter(s, id), Outcome(s, id, c))
  {
    var w', c' := WorldAfter(s, id), Outcome(s, id, c);
    assert w'.log == s.w.log && w'.now == s.w.now;
    if !c'.NoSuchChat? {
      assert Read(w', c.q.ch, c'.src);
    }
  }

  lemma LoadersKeep(s: State, id: nat)
    requires Inv(s) && id in s.calls
    ensures Loaders(WorldAfter(s, id).loads, Apply(s, Next(id)).calls)
  {
    OutcomeIsOk(s, id);
    assert CallOk(s.w, s.calls[id]);
    hide EntryOk, MemoOk, Snapshot, TrueWhenRead, Clock;
  }

  /** A call that goes on is no earlier than it was. */
  lemma BuiltByStays(s: State, id: nat, t: int)
    requires s.w.log != [] && id in s.calls && CallOk(s.w, s.calls[id]) && BuiltBy(s.calls[id], t)
    ensures BuiltBy(Outcome(s, id, s.calls[id]), t)
  {
    hide TrueWhenRead, Snapshot;
    ProbeWasRead(s.w, s.calls[id]);
  }

  lemma ProbeWasRead(w: World, c: Call)
    requires CallOk(w, c)
    ensures c.Probed? ==> Read(w, c.q.ch, c.src)
  {
  }

  lemma BuildersKeep(s: State, id: nat)
    requires Inv(s) && id in s.calls
    ensures Builders(WorldAfter(s, id).made, Apply(s, Next(id)).calls)
  {
    var c, c' := s.calls[id], Outcome(s, id, s.calls[id]);
    var s' := Apply(s, Next(id));
    assert CallOk(s.w, c) && OwnRead(id, c);
    hide CallOk, EntryOk, MemoOk, Clock, Loaders;
    forall r, t | (r, t) in s'.w.made ensures r.loader in s'.calls && BuiltBy(s'.calls[r.loader], t) {
      if (r, t) in s.w.made {
        if r.loader == id { BuiltByStays(s, id, t); }
      }
    }
  }

  lemma OwnReadsKeep(s: State, id: nat)
    requires s.w.log != [] && OwnReads(s.calls) && id in s.calls
    ensures OwnReads(Apply(s, Next(id)).calls)
  {
    assert OwnRead(id, s.calls[id]);
  }

  /** A call that stores what it has built puts it in a cache where it belongs. */
  lemma CachesKeep(s: State, id: nat)
    requires id in s.calls && CacheOk(s.w, s.cache) && MemosOk(s.w, s.memo) && CallsOk(s.w, s.calls)
    ensures
      var c := s.calls[id];
      && (c.Built? ==> CacheOk(s.w, s.cache[c.q.ch := c.e]))
      && (c.BuiltMemo? ==> MemosOk(s.w, s.memo[(c.q.ch, c.q.u) := c.m]))
  {
    var c := s.calls[id];
    assert CallOk(s.w, c);
    assert c.Built? ==> EntryOk(s.w, c.q.ch, c.e);
    assert c.BuiltMemo? ==> MemoOk(s.w, c.q.ch, c.q.u, c.m);
    hide EntryOk, MemoOk, CallOk;
  }

  lemma CallPut(w: World, calls: map<nat, Call>, id: nat, c: Call)
    requires CallsOk(w, calls) && CallOk(w, c)
    ensures CallsOk(w, calls[id := c])
  {
    hide CallOk;
  }

  lemma WorldAfterIsLater(s: State, id: nat)
    requires Clock(s.w) && id in s.calls
    ensures Later(s.w, WorldAfter(s, id)) && Clock(WorldAfter(s, id))
  {
  }

  lemma NextKeeps(s: State, id: nat)
    requires Inv(s) && id in s.calls
    ensures Inv(Apply(s, Next(id)))
  {
    var c, w' := s.calls[id], WorldAfter(s, id);
    OutcomeIsOk(s, id);
    LoadersKeep(s, id);
    BuildersKeep(s, id);
    OwnReadsKeep(s, id);
    WorldAfterIsLater(s, id);
    WorldMoves(s, w');
    hide CallOk, CacheOk, MemosOk, CallsOk, Outcome, Loaders, Builders, OwnReads, Clock, Later, Noted;
    CachesKeep(s.(w := w'), id);
    CallPut(w', s.calls, id, Outcome(s, id, c));
  }

  lemma BeginKeeps(s: State, id: nat, ch: ChatId, u: User)
    requires Inv(s)
    ensures Inv(Apply(s, Begin(id, ch, u)))
  {
    hide CacheOk, MemosOk, Clock;
    CallPut(s.w, s.calls, id, Asked(Question(ch, u, s.w.now)));
    hide CallsOk;
  }

  /** Time passes, or somebody changes a membership. */
  lemma WorldKeeps(s: State, w': World)
    requires Inv(s) && Later(s.w, w') && Clock(w') && w'.loads == s.w.loads && w'.made == s.w.made
    ensures Inv(s.(w := w'))
  {
    WorldMoves(s, w');
    hide CacheOk, MemosOk, CallsOk, Loaders, Builders, OwnReads, Clock, Later;
  }

  lemma ForgetKeeps(s: State, views: set<ChatId>, keys: set<(ChatId, User)>)
    requires Inv(s)
    ensures Inv(Apply(s, Forget(views, keys)))
  {
    hide EntryOk, MemoOk, CallsOk, Histories, Clock;
  }

  lemma TickKeeps(s: State, ms: nat)
    requires Inv(s)
    ensures Inv(Apply(s, Tick(ms)))
  {
    WorldKeeps(s, s.w.(now := s.w.now + ms));
    hide Inv;
  }

  lemma MutateKeeps(s: State, chats: map<ChatId, Roles>)
    requires Inv(s)
    ensures Inv(Apply(s, Mutate(chats)))
  {
    assert Clock(s.w);
    hide Inv;
    var w' := s.w.(log := s.w.log + [Version(s.w.now, chats)]);
    assert Clock(w') && Later(s.w, w');
    WorldKeeps(s, w');
  }

  lemma NextKeepsAny(s: State, id: nat)
    requires Inv(s)
    ensures Inv(Apply(s, Next(id)))
  {
    if id in s.calls {
      NextKeeps(s, id);
    }
    hide Inv;
  }

  lemma StepKeeps(s: State, step: Step)
    requires Inv(s)
    ensures Inv(Apply(s, step))
  {
    assert s.w.log != [];
    hide *;
    match step
    case Tick(ms) => TickKeeps(s, ms);
    case Mutate(chats) => MutateKeeps(s, chats);
    case Forget(views, keys) => ForgetKeeps(s, views, keys);
    case Begin(id, ch, u) => BeginKeeps(s, id, ch, u);
    case Next(id) => NextKeepsAny(s, id);
  }

  lemma {:induction false} RunKeeps(steps: seq<Step>)
    ensures Inv(Run(steps))
  {
    if steps != [] {
      RunKeeps(steps[..|steps| - 1]);
      StepKeeps(Run(steps[..|steps| - 1]), steps[|steps| - 1]);
    }
  }

  // --- the theorem ---

  /** The store gave this answer at time `t`. */
  ghost predicate TrueAt(w: World, ch: ChatId, u: User, role: Option<Role>, t: int) {
    exists i: nat :: InForce(w, i, t) &&
      role == if ch in w.log[i].chats then ChatService.RoleIn(w.log[i].chats[ch], u) else None
  }

  /**
   Staleness is bounded on both paths, whatever changes, loads, invalidations and
   evictions interleave. Every role answer was the store's own answer at the instant
   `load.readAt` of a read some call about this chat really made, after that call
   started. Either that is the answering call, and the read lies within it; or the answer
   was taken from the cache during the call, less than one TTL plus the duration of that
   load after the read. The load ended when its call built the entry, before it answered.
   */
  lemma RoleAnswersAreRecent(steps: seq<Step>, id: nat)
    requires id in Run(steps).calls && Run(steps).calls[id].Answered?
    ensures
      var s := Run(steps);
      var a := s.calls[id];
      var load := a.src;
      && a.q.start <= a.checked <= s.w.now
      && TrueAt(s.w, a.q.ch, a.q.u, a.role, load.readAt)
      && (a.q.ch, load) in s.w.loads && (load, a.madeAt) in s.w.made
      && load.loader in s.calls && s.calls[load.loader].q.ch == a.q.ch
      && s.calls[load.loader].q.start <= load.began <= load.readAt <= a.madeAt <= s.w.now
      && BuiltBy(s.calls[load.loader], a.madeAt)
      && (s.calls[load.loader].Answered? ==> a.madeAt <= s.calls[load.loader].checked)
      && if a.own then load.loader == id && a.q.start <= load.began
         else a.checked - load.readAt < TTL + (a.madeAt - load.began)
  {
    RunKeeps(steps);
    var s := Run(steps);
    var a := s.calls[id];
    assert CallOk(s.w, a) && OwnRead(id, a);
    assert TrueAt(s.w, a.q.ch, a.q.u, a.role, a.src.readAt);
  }
}
