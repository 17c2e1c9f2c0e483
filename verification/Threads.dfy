/**
 Thread roots, reply counts and forward origins in the message logs that Send, Forward,
 Edit and Delete build.
 */
module Threads {
  import opened Wrappers

  type ChatId = nat
  type User = nat
  type Id = nat

  /** Where a forward came from. */
  datatype Origin = Origin(chat: ChatId, id: Id, sender: User)

  datatype Message = Message(
    id: Id, sender: User, text: string, replyTo: Option<Id>, threadRoot: Option<Id>,
    forward: Option<Origin>, number: nat, replyCount: nat, edited: bool, deleted: bool)

  type Log = seq<Message>

  datatype Room = Room(log: Log, lastSeq: nat)

  datatype Db = Db(rooms: map<ChatId, Room>, dedup: map<(User, string), Id>, nextId: Id)

  function Find(log: Log, id: Id): (r: Option<nat>)
    ensures r.Some? ==> r.value < |log| && log[r.value].id == id
    ensures r.None? ==> forall i :: 0 <= i < |log| ==> log[i].id != id
  {
    if log == [] then None
    else if log[0].id == id then Some(0)
    else
      var r := Find(log[1..], id);
      assert forall i :: 0 < i < |log| ==> log[i] == log[1..][i - 1];
      if r.Some? then Some(r.value + 1) else None
  }

  // --- the reply chain, walked ---

  /** The message a reply answers: one that was in the chat when it was sent. */
  function Parent(log: Log, i: nat): (r: Option<nat>)
    requires i < |log|
    ensures r.Some? ==> r.value < i
  {
    if log[i].replyTo.None? then None else Find(log[..i], log[i].replyTo.value)
  }

  function Root(log: Log, i: nat): (r: nat)
    requires i < |log|
    ensures r <= i
  {
    match Parent(log, i)
    case None => i
    case Some(j) => Root(log, j)
  }

  /** `i` answers `r`, or answers something that descends from `r`. */
  predicate Descends(log: Log, i: nat, r: nat)
    requires i < |log|
  {
    match Parent(log, i)
    case None => false
    case Some(j) => j == r || Descends(log, j, r)
  }

  // --- what a log keeps ---

  ghost predicate Increasing(log: Log) {
    forall i, j :: 0 <= i < j < |log| ==> log[i].id < log[j].id && log[i].number < log[j].number
  }

  /** The stored root is the one the walk finds; a message without a parent stores none. */
  ghost predicate Rooted(log: Log) {
    forall i :: 0 <= i < |log| ==>
      log[i].threadRoot == if Parent(log, i).None? then None else Some(log[Root(log, i)].id)
  }

  function Replies(log: Log, id: Id): nat {
    if log == [] then 0
    else Replies(log[..|log| - 1], id) + if log[|log| - 1].threadRoot == Some(id) then 1 else 0
  }

  ghost predicate Counted(log: Log) {
    forall i :: 0 <= i < |log| ==> log[i].replyCount == Replies(log, log[i].id)
  }

  ghost predicate Bounded(log: Log, lastSeq: nat, nextId: Id) {
    forall i :: 0 <= i < |log| ==> log[i].id < nextId && log[i].number <= lastSeq
  }

  ghost predicate RoomOk(room: Room, nextId: Id) {
    Bounded(room.log, room.lastSeq, nextId) && Increasing(room.log) && Rooted(room.log) && Counted(room.log)
  }

  /** An origin names a message that is itself no forward, with its true sender. */
  ghost predicate TrueOrigin(db: Db, o: Origin) {
    o.chat in db.rooms &&
    exists k :: 0 <= k < |db.rooms[o.chat].log| && Names(o, db.rooms[o.chat].log[k])
  }

  predicate Names(o: Origin, m: Message) { m.id == o.id && m.sender == o.sender && m.forward == None }

  ghost predicate OriginsTrue(db: Db) {
    forall c, i :: c in db.rooms && 0 <= i < |db.rooms[c].log| && db.rooms[c].log[i].forward.Some? ==>
      TrueOrigin(db, db.rooms[c].log[i].forward.value)
  }

  ghost predicate Inv(db: Db) {
    (forall c :: c in db.rooms ==> RoomOk(db.rooms[c], db.nextId)) && OriginsTrue(db)
  }

  // --- the operations ---

  /** Send's flattening: the parent's root, or the parent when it has none. */
  function RootFor(log: Log, replyTo: Option<Id>): Option<Id> {
    if replyTo.None? then None
    else
      match Find(log, replyTo.value)
      case None => None
      case Some(j) => if log[j].threadRoot.Some? then log[j].threadRoot else Some(log[j].id)
  }

  function LogOf(db: Db, c: ChatId): Log { if c in db.rooms then db.rooms[c].log else [] }

  /** The earlier message a retry resolves to: the key is the sender's, the search the chat's. */
  function Existing(db: Db, c: ChatId, sender: User, key: string): Option<nat> {
    if key != "" && (sender, key) in db.dedup then Find(LogOf(db, c), db.dedup[(sender, key)]) else None
  }

  function Bumped(log: Log, root: Option<Id>): Log {
    if root.None? then log
    else
      match Find(log, root.value)
      case None => log
      case Some(j) => log[j := log[j].(replyCount := log[j].replyCount + 1)]
  }

  function Appended(room: Room, m: Message): Room {
    Room(Bumped(room.log + [m.(number := room.lastSeq + 1)], m.threadRoot), room.lastSeq + 1)
  }

  function Draft(db: Db, c: ChatId, sender: User, text: string, replyTo: Option<Id>, fwd: Option<Origin>): Message {
    Message(db.nextId, sender, text, replyTo, RootFor(LogOf(db, c), replyTo), fwd, 0, 0, false, false)
  }

  function Inserted(db: Db, c: ChatId, m: Message, key: string): Db {
    if Existing(db, c, m.sender, key).Some? || c !in db.rooms then db
    else db.(rooms := db.rooms[c := Appended(db.rooms[c], m)],
             dedup := if key != "" then db.dedup[(m.sender, key) := m.id] else db.dedup)
  }

  function OriginOf(c: ChatId, m: Message): Origin {
    if m.forward.Some? then m.forward.value else Origin(c, m.id, m.sender)
  }

  datatype Step =
    | Send(c: ChatId, sender: User, text: string, replyTo: Option<Id>, key: string)
    | Forward(c: ChatId, sender: User, from: ChatId, id: Id, key: string)
    | Edit(c: ChatId, id: Id, text: string)
    | Delete(c: ChatId, id: Id)
    | OpenChat(c: ChatId)
    | SkipSeq(c: ChatId)

  function Posted(db: Db, c: ChatId, m: Message, key: string): Db
    requires m.id == db.nextId
  {
    Inserted(db, c, m, key).(nextId := db.nextId + 1)
  }

  function Changed(db: Db, c: ChatId, j: nat, m: Message): Db
    requires c in db.rooms && j < |db.rooms[c].log|
  {
    db.(rooms := db.rooms[c := db.rooms[c].(log := db.rooms[c].log[j := m])])
  }

  function Apply(db: Db, step: Step): Db {
    match step
    case Send(c, sender, text, replyTo, key) => Posted(db, c, Draft(db, c, sender, text, replyTo, None), key)
    case Forward(c, sender, from, id, key) =>
      (match Find(LogOf(db, from), id)
       case None => db
       case Some(j) =>
         var src := LogOf(db, from)[j];
         if src.deleted then db
         else Posted(db, c, Draft(db, c, sender, src.text, None, Some(OriginOf(from, src))), key))
    case Edit(c, id, text) =>
      (match Find(LogOf(db, c), id)
       case None => db
       case Some(j) => Changed(db, c, j, LogOf(db, c)[j].(text := text, edited := true)))
    case Delete(c, id) =>
      (match Find(LogOf(db, c), id)
       case None => db
       case Some(j) => Changed(db, c, j, LogOf(db, c)[j].(text := "", deleted := true)))
    case OpenChat(c) => if c in db.rooms then db else db.(rooms := db.rooms[c := Room([], 0)])
    case SkipSeq(c) =>
      if c !in db.rooms then db
      else db.(rooms := db.rooms[c := db.rooms[c].(lastSeq := db.rooms[c].lastSeq + 1)])
  }

  function Run(steps: seq<Step>): Db {
    if steps == [] then Db(map[], map[], 0) else Apply(Run(steps[..|steps| - 1]), steps[|steps| - 1])
  }

  // --- a log that grows ---

  /** Everything but text, flags and counts is the same. */
  predicate SameBones(m: Message, m': Message) {
    m.id == m'.id && m.sender == m'.sender && m.replyTo == m'.replyTo
    && m.threadRoot == m'.threadRoot && m.forward == m'.forward && m.number == m'.number
  }

  ghost predicate Grows(log: Log, log': Log) {
    |log| <= |log'| && forall i :: 0 <= i < |log| ==> SameBones(log[i], log'[i])
  }

  lemma {:induction false} FindSame(log: Log, log': Log, id: Id)
    requires |log| == |log'| && forall i :: 0 <= i < |log| ==> log[i].id == log'[i].id
    ensures Find(log, id) == Find(log', id)
  {
    if log != [] {
      forall i | 0 <= i < |log| - 1 ensures log[1..][i].id == log'[1..][i].id {
        assert log[1..][i] == log[i + 1] && log'[1..][i] == log'[i + 1];
      }
      FindSame(log[1..], log'[1..], id);
    }
  }

  lemma {:induction false} RootSame(log: Log, log': Log, i: nat)
    requires Grows(log, log') && i < |log|
    ensures Parent(log, i) == Parent(log', i) && Root(log, i) == Root(log', i)
  {
    if log[i].replyTo.Some? {
      forall k | 0 <= k < i ensures log[..i][k].id == log'[..i][k].id {
        assert SameBones(log[k], log'[k]);
      }
      FindSame(log[..i], log'[..i], log[i].replyTo.value);
      assert SameBones(log[i], log'[i]);
      if Parent(log, i).Some? {
        RootSame(log, log', Parent(log, i).value);
      }
    } else {
      assert SameBones(log[i], log'[i]);
    }
  }

  lemma {:induction false} RepliesSame(log: Log, log': Log, id: Id)
    requires |log| == |log'| && Grows(log, log')
    ensures Replies(log, id) == Replies(log', id)
  {
    if log != [] {
      var n := |log| - 1;
      assert SameBones(log[n], log'[n]);
      RepliesSame(log[..n], log'[..n], id);
    }
  }

  /** Edits, tombstones and counts leave roots as they are. */
  lemma SameBonesKeep(log: Log, log': Log, lastSeq: nat, nextId: Id)
    requires |log| == |log'| && Grows(log, log')
    requires Bounded(log, lastSeq, nextId) && Increasing(log) && Rooted(log)
    ensures Bounded(log', lastSeq, nextId) && Increasing(log') && Rooted(log')
  {
    hide Parent, Root;
    forall i | 0 <= i < |log|
      ensures log'[i].threadRoot == if Parent(log', i).None? then None else Some(log'[Root(log', i)].id)
    {
      RootSame(log, log', i);
      assert SameBones(log[i], log'[i]);
      assert SameBones(log[Root(log, i)], log'[Root(log, i)]);
    }
    assert forall i :: 0 <= i < |log| ==> SameBones(log[i], log'[i]);
  }

  lemma RoomKeeps(room: Room, log': Log, nextId: Id)
    requires RoomOk(room, nextId) && |room.log| == |log'| && Grows(room.log, log')
    requires forall i :: 0 <= i < |log'| ==> log'[i].replyCount == room.log[i].replyCount
    ensures RoomOk(room.(log := log'), nextId)
  {
    hide Rooted, Increasing;
    SameBonesKeep(room.log, log', room.lastSeq, nextId);
    forall i | 0 <= i < |log'| ensures log'[i].replyCount == Replies(log', log'[i].id) {
      RepliesSame(room.log, log', log'[i].id);
      assert SameBones(room.log[i], log'[i]);
    }
  }

  // --- appending ---

  lemma {:induction false} RootHasNoParent(log: Log, i: nat)
    requires i < |log|
    ensures Parent(log, Root(log, i)).None?
  {
    if Parent(log, i).Some? {
      RootHasNoParent(log, Parent(log, i).value);
    }
  }

  lemma {:induction false} NoRepliesYet(log: Log, id: Id)
    requires forall i :: 0 <= i < |log| ==> log[i].threadRoot != Some(id)
    ensures Replies(log, id) == 0
  {
    if log != [] {
      NoRepliesYet(log[..|log| - 1], id);
    }
  }

  lemma AppendRooted(log: Log, m: Message)
    requires Rooted(log) && m.threadRoot == RootFor(log, m.replyTo)
    ensures Rooted(log + [m])
  {
    var log', n := log + [m], |log|;
    hide Root, Parent;
    forall i | 0 <= i < n
      ensures log'[i].threadRoot == if Parent(log', i).None? then None else Some(log'[Root(log', i)].id)
    {
      assert forall k :: 0 <= k < n ==> SameBones(log[k], log'[k]);
      RootSame(log, log', i);
    }
    LastRooted(log, m);
  }

  lemma LastRooted(log: Log, m: Message)
    requires Rooted(log) && m.threadRoot == RootFor(log, m.replyTo)
    ensures
      var log', n := log + [m], |log|;
      m.threadRoot == if Parent(log', n).None? then None else Some(log'[Root(log', n)].id)
  {
    var log', n := log + [m], |log|;
    assert log'[..n] == log;
    assert forall k :: 0 <= k < n ==> SameBones(log[k], log'[k]);
    if Parent(log', n).Some? {
      RootSame(log, log', Parent(log', n).value);
    }
  }

  /** A root a new message joins is in the log, so its count is kept. */
  lemma RootIsThere(log: Log, replyTo: Option<Id>)
    requires Rooted(log) && RootFor(log, replyTo).Some?
    ensures Find(log, RootFor(log, replyTo).value).Some?
  {
    var j := Find(log, replyTo.value).value;
    assert log[j].threadRoot.Some? ==> log[Root(log, j)].id == log[j].threadRoot.value;
  }

  lemma AppendCounted(log: Log, m: Message)
    requires Increasing(log + [m]) && Rooted(log) && Counted(log)
    requires m.threadRoot == RootFor(log, m.replyTo) && m.replyCount == 0
    ensures Counted(Bumped(log + [m], m.threadRoot))
  {
    var log' := log + [m];
    var end := Bumped(log', m.threadRoot);
    assert log'[..|log|] == log;
    BumpGrows(log', m.threadRoot);
    if m.threadRoot.Some? {
      RootIsThere(log, m.replyTo);
      var k := Find(log, m.threadRoot.value).value;
      assert log'[k].id == m.threadRoot.value;
    }
    NewHasNone(log, m);
    hide Bumped, RootFor, Rooted, Increasing, Grows;
    forall i | 0 <= i < |end| ensures end[i].replyCount == Replies(end, end[i].id) {
      BumpCounts(log', m.threadRoot, i);
      RepliesSame(log', end, end[i].id);
    }
  }

  lemma BumpCounts(log: Log, root: Option<Id>, i: nat)
    requires Increasing(log) && i < |log| && (root.Some? ==> Find(log, root.value).Some?)
    ensures |Bumped(log, root)| == |log| && Bumped(log, root)[i].id == log[i].id
    ensures Bumped(log, root)[i].replyCount == log[i].replyCount + if root == Some(log[i].id) then 1 else 0
  {
  }

  lemma NewHasNone(log: Log, m: Message)
    requires Increasing(log + [m]) && Rooted(log)
    requires m.threadRoot == RootFor(log, m.replyTo)
    ensures Replies(log, m.id) == 0 && m.threadRoot != Some(m.id)
  {
    var log' := log + [m];
    forall k | 0 <= k < |log| ensures log[k].id < m.id {
      assert log'[k].id < log'[|log|].id;
    }
    hide Increasing;
    forall k | 0 <= k < |log| ensures log[k].threadRoot != Some(m.id) {
      assert log[k].threadRoot.Some? ==> log[Root(log, k)].id == log[k].threadRoot.value;
    }
    NoRepliesYet(log, m.id);
    if m.threadRoot.Some? {
      RootIsThere(log, m.replyTo);
    }
  }

  lemma AppendKeeps(room: Room, m: Message, nextId: Id)
    requires RoomOk(room, nextId) && m.id == nextId && m.replyCount == 0
    requires m.threadRoot == RootFor(room.log, m.replyTo)
    ensures RoomOk(Appended(room, m), nextId + 1) && Grows(room.log, Appended(room, m).log)
  {
    hide Rooted, Counted, Bumped, RootFor, Find;
    var last := m.(number := room.lastSeq + 1);
    var log' := room.log + [last];
    AppendOrdered(room, last, nextId);
    hide Increasing, Bounded;
    AppendRooted(room.log, last);
    AppendCounted(room.log, last);
    BumpGrows(log', m.threadRoot);
    SameBonesKeep(log', Bumped(log', m.threadRoot), room.lastSeq + 1, nextId + 1);
    forall i | 0 <= i < |room.log| ensures SameBones(room.log[i], Bumped(log', m.threadRoot)[i]) {
      assert SameBones(log'[i], Bumped(log', m.threadRoot)[i]);
    }
  }

  lemma AppendOrdered(room: Room, m: Message, nextId: Id)
    requires Bounded(room.log, room.lastSeq, nextId) && Increasing(room.log)
    requires m.id == nextId && m.number == room.lastSeq + 1
    ensures Bounded(room.log + [m], room.lastSeq + 1, nextId + 1) && Increasing(room.log + [m])
  {
  }

  lemma BumpGrows(log: Log, root: Option<Id>)
    ensures |Bumped(log, root)| == |log| && Grows(log, Bumped(log, root))
  {
  }

  // --- every run ---

  ghost predicate AllGrow(db: Db, db': Db) {
    forall c :: c in db.rooms ==> c in db'.rooms && Grows(db.rooms[c].log, db'.rooms[c].log)
  }

  lemma OriginStays(db: Db, db': Db, o: Origin)
    requires TrueOrigin(db, o) && AllGrow(db, db')
    ensures TrueOrigin(db', o)
  {
    var k :| 0 <= k < |db.rooms[o.chat].log| && Names(o, db.rooms[o.chat].log[k]);
    assert SameBones(db.rooms[o.chat].log[k], db'.rooms[o.chat].log[k]);
    assert Names(o, db'.rooms[o.chat].log[k]);
  }

  lemma RoomSurvives(db: Db, db': Db, c: ChatId, i: nat)
    requires AllGrow(db, db') && c in db.rooms && i < |db.rooms[c].log|
    ensures c in db'.rooms && i < |db'.rooms[c].log| && SameBones(db.rooms[c].log[i], db'.rooms[c].log[i])
  {
  }

  /** Origins stay true when the only new message has a true one. */
  lemma OriginsStay(db: Db, db': Db)
    requires OriginsTrue(db) && AllGrow(db, db')
    requires forall c, i :: c in db'.rooms && 0 <= i < |db'.rooms[c].log| && db'.rooms[c].log[i].forward.Some? ==>
      (c in db.rooms && i < |db.rooms[c].log|) || TrueOrigin(db, db'.rooms[c].log[i].forward.value)
    ensures OriginsTrue(db')
  {
    hide TrueOrigin;
    forall c, i | c in db'.rooms && 0 <= i < |db'.rooms[c].log| && db'.rooms[c].log[i].forward.Some?
      ensures TrueOrigin(db', db'.rooms[c].log[i].forward.value)
    {
      if c in db.rooms && i < |db.rooms[c].log| {
        RoomSurvives(db, db', c, i);
        assert db.rooms[c].log[i].forward == db'.rooms[c].log[i].forward;
      }
      OriginStays(db, db', db'.rooms[c].log[i].forward.value);
    }
  }

  lemma NextIdKeeps(room: Room, nextId: Id)
    requires RoomOk(room, nextId)
    ensures RoomOk(room, nextId + 1)
  {
    hide Increasing, Rooted, Counted;
  }

  lemma GrowsSelf(log: Log)
    ensures Grows(log, log)
  {
  }

  lemma PostKeeps(db: Db, c: ChatId, m: Message, key: string)
    requires Inv(db) && m.id == db.nextId && m.replyCount == 0
    requires m.threadRoot == RootFor(LogOf(db, c), m.replyTo)
    requires m.forward.Some? ==> TrueOrigin(db, m.forward.value)
    ensures Inv(Posted(db, c, m, key)) && AllGrow(db, Posted(db, c, m, key))
  {
    hide RoomOk, TrueOrigin, Grows, Existing, Appended, RootFor;
    var db' := Posted(db, c, m, key);
    forall d | d in db.rooms
      ensures d in db'.rooms && RoomOk(db'.rooms[d], db'.nextId) && Grows(db.rooms[d].log, db'.rooms[d].log)
    {
      NextIdKeeps(db.rooms[d], db.nextId);
      GrowsSelf(db.rooms[d].log);
      if d == c {
        AppendKeeps(db.rooms[c], m, db.nextId);
      }
    }
    forall d, i | d in db'.rooms && 0 <= i < |db'.rooms[d].log| && db'.rooms[d].log[i].forward.Some?
      ensures (d in db.rooms && i < |db.rooms[d].log|) || TrueOrigin(db, db'.rooms[d].log[i].forward.value)
    {
      if d == c && db'.rooms[c] != db.rooms[c] {
        AppendedLast(db.rooms[c], m);
      }
    }
    OriginsStay(db, db');
  }

  lemma AppendedLast(room: Room, m: Message)
    ensures
      var log' := Appended(room, m).log;
      && |log'| == |room.log| + 1 && log'[|room.log|].forward == m.forward && log'[|room.log|].id == m.id
      && Find(log', m.id).Some?
  {
  }

  lemma ChangeKeeps(db: Db, c: ChatId, j: nat, m: Message)
    requires Inv(db) && c in db.rooms && j < |db.rooms[c].log|
    requires SameBones(db.rooms[c].log[j], m) && m.replyCount == db.rooms[c].log[j].replyCount
    ensures Inv(Changed(db, c, j, m)) && AllGrow(db, Changed(db, c, j, m))
  {
    hide RoomOk, TrueOrigin;
    var db' := Changed(db, c, j, m);
    RoomKeeps(db.rooms[c], db'.rooms[c].log, db.nextId);
    OriginsStay(db, db');
  }

  lemma EmptyRoomOk(nextId: Id)
    ensures RoomOk(Room([], 0), nextId)
  {
  }

  lemma SkipKeeps(room: Room, nextId: Id)
    requires RoomOk(room, nextId)
    ensures RoomOk(room.(lastSeq := room.lastSeq + 1), nextId)
  {
    hide Increasing, Rooted, Counted;
  }

  lemma ForwardedIsTrue(db: Db, from: ChatId, j: nat)
    requires Inv(db) && from in db.rooms && j < |db.rooms[from].log|
    ensures TrueOrigin(db, OriginOf(from, db.rooms[from].log[j]))
  {
    var src := db.rooms[from].log[j];
    if src.forward.None? {
      assert Names(OriginOf(from, src), db.rooms[from].log[j]);
    }
  }

  lemma StepKeepsInv(db: Db, step: Step)
    requires Inv(db)
    ensures Inv(Apply(db, step)) && AllGrow(db, Apply(db, step))
  {
    hide Inv, Posted, Changed, Find, RootFor, TrueOrigin;
    Unchanged(db);
    match step
    case Send(c, sender, text, replyTo, key) =>
      PostKeeps(db, c, Draft(db, c, sender, text, replyTo, None), key);
    case Forward(c, sender, from, id, key) =>
      var r := Find(LogOf(db, from), id);
      if r.Some? && !LogOf(db, from)[r.value].deleted {
        ForwardedIsTrue(db, from, r.value);
        var src := LogOf(db, from)[r.value];
        NoReply(LogOf(db, c));
        PostKeeps(db, c, Draft(db, c, sender, src.text, None, Some(OriginOf(from, src))), key);
      }
    case Edit(c, id, text) =>
      var r := Find(LogOf(db, c), id);
      if r.Some? {
        ChangeKeeps(db, c, r.value, LogOf(db, c)[r.value].(text := text, edited := true));
      }
    case Delete(c, id) =>
      var r := Find(LogOf(db, c), id);
      if r.Some? {
        ChangeKeeps(db, c, r.value, LogOf(db, c)[r.value].(text := "", deleted := true));
      }
    case OpenChat(c) =>
      ChatStepKeepsInv(db, step);
    case SkipSeq(c) =>
      ChatStepKeepsInv(db, step);
  }

  lemma Unchanged(db: Db)
    ensures AllGrow(db, db)
  {
  }

  lemma NoReply(log: Log)
    ensures RootFor(log, None) == None
  {
  }

  lemma ChatStepKeepsInv(db: Db, step: Step)
    requires Inv(db) && (step.OpenChat? || step.SkipSeq?)
    ensures Inv(Apply(db, step)) && AllGrow(db, Apply(db, step))
  {
    hide RoomOk, TrueOrigin;
    EmptyRoomOk(db.nextId);
    if step.c in db.rooms {
      SkipKeeps(db.rooms[step.c], db.nextId);
    }
    OriginsStay(db, Apply(db, step));
  }

  lemma {:induction false} RunKeepsInv(steps: seq<Step>)
    ensures Inv(Run(steps))
  {
    if steps != [] {
      RunKeepsInv(steps[..|steps| - 1]);
      StepKeepsInv(Run(steps[..|steps| - 1]), steps[|steps| - 1]);
    }
  }

  // --- what the runs promise ---

  /** In every run a forward names an original, never a forward, and its true author. */
  lemma ForwardNamesTheOriginal(steps: seq<Step>, c: ChatId, i: nat)
    requires c in Run(steps).rooms && i < |Run(steps).rooms[c].log|
    requires Run(steps).rooms[c].log[i].forward.Some?
    ensures
      var db := Run(steps);
      var o := db.rooms[c].log[i].forward.value;
      o.chat in db.rooms && exists k :: 0 <= k < |db.rooms[o.chat].log| && Names(o, db.rooms[o.chat].log[k])
  {
    RunKeepsInv(steps);
    assert TrueOrigin(Run(steps), Run(steps).rooms[c].log[i].forward.value);
  }

  lemma {:induction false} DescendsFromRoot(log: Log, i: nat, r: nat)
    requires i < |log| && r < |log| && Parent(log, r).None?
    ensures Descends(log, i, r) <==> Parent(log, i).Some? && Root(log, i) == r
  {
    if Parent(log, i).Some? {
      DescendsFromRoot(log, Parent(log, i).value, r);
    }
  }

  lemma {:induction false} DescendsViaChild(log: Log, i: nat, r: nat)
    requires i < |log| && Descends(log, i, r)
    ensures exists k: nat :: k <= i && Parent(log, k) == Some(r)
  {
    var j := Parent(log, i).value;
    if j == r {
      assert Parent(log, i) == Some(r);
    } else {
      DescendsViaChild(log, j, r);
    }
  }

  ghost predicate HasReply(log: Log, r: nat) {
    exists k: nat :: k < |log| && Parent(log, k) == Some(r)
  }

  /** The messages an indexed read of `r`'s thread finds. */
  predicate Indexed(log: Log, i: nat, r: nat)
    requires i < |log| && r < |log|
  {
    log[i].threadRoot == Some(log[r].id)
  }

  /**
   The indexed read finds exactly the transitive replies if and only if the message
   asked about starts a thread or has no reply at all.
   */
  lemma ThreadReadIsRepliesExactlyWhen(steps: seq<Step>, c: ChatId, r: nat)
    requires c in Run(steps).rooms && r < |Run(steps).rooms[c].log|
    ensures
      var log := Run(steps).rooms[c].log;
      (forall i: nat :: i < |log| ==> (Indexed(log, i, r) <==> Descends(log, i, r)))
      <==> Parent(log, r).None? || !HasReply(log, r)
  {
    RunKeepsInv(steps);
    assert RoomOk(Run(steps).rooms[c], Run(steps).nextId);
    var log := Run(steps).rooms[c].log;
    hide Run, Inv, Counted, Bounded;
    forall i: nat | i < |log|
      ensures Indexed(log, i, r) <==> Parent(log, r).None? && Descends(log, i, r)
    {
      IndexedIs(log, i, r);
    }
    if Parent(log, r).Some? {
      if HasReply(log, r) {
        var k: nat :| k < |log| && Parent(log, k) == Some(r);
        assert Descends(log, k, r) && !Indexed(log, k, r);
      } else {
        forall i: nat | i < |log| ensures !Descends(log, i, r) {
          if Descends(log, i, r) {
            DescendsViaChild(log, i, r);
          }
        }
      }
    }
  }

  lemma IndexedIs(log: Log, i: nat, r: nat)
    requires Increasing(log) && Rooted(log) && i < |log| && r < |log|
    ensures Indexed(log, i, r) <==> Parent(log, r).None? && Descends(log, i, r)
  {
    RootHasNoParent(log, i);
    if Parent(log, r).None? {
      DescendsFromRoot(log, i, r);
    }
    var q := Root(log, i);
    assert q != r ==> log[q].id != log[r].id;
  }

  /** How many of the first `n` messages descend from `r`. */
  function Descendants(log: Log, r: nat, n: nat): nat
    requires n <= |log|
  {
    if n == 0 then 0 else Descendants(log, r, n - 1) + if Descends(log, n - 1, r) then 1 else 0
  }

  lemma {:induction false} RepliesAreDescendants(log: Log, r: nat, n: nat)
    requires Increasing(log) && Rooted(log) && r < |log| && n <= |log|
    ensures Replies(log[..n], log[r].id) == if Parent(log, r).None? then Descendants(log, r, n) else 0
  {
    hide Increasing, Rooted, Parent, Descends;
    if n > 0 {
      RepliesAreDescendants(log, r, n - 1);
      assert log[..n][..n - 1] == log[..n - 1];
      IndexedIs(log, n - 1, r);
    }
  }

  /**
   In every run the stored root is the one found by walking the reply chain. The reply
   count of a message that starts a thread is the number of its transitive replies; any
   other message has none, whatever descends from it.
   */
  lemma StoredRootIsWalkedRoot(steps: seq<Step>, c: ChatId, i: nat)
    requires c in Run(steps).rooms && i < |Run(steps).rooms[c].log|
    ensures
      var log := Run(steps).rooms[c].log;
      && log[i].threadRoot == (if Parent(log, i).None? then None else Some(log[Root(log, i)].id))
      && log[i].replyCount == (if Parent(log, i).None? then Descendants(log, i, |log|) else 0)
  {
    RunKeepsInv(steps);
    var room := Run(steps).rooms[c];
    assert RoomOk(room, Run(steps).nextId);
    RepliesAreDescendants(room.log, i, |room.log|);
    assert room.log[..|room.log|] == room.log;
  }

  // --- a reply to a reply, concretely ---

  const CHAIN: seq<Step> :=
    [OpenChat(1), Send(1, 7, "", None, ""), Send(1, 7, "", Some(0), ""), Send(1, 7, "", Some(1), "")]

  /** Message `id` of the chain, in thread 0. */
  function Link(id: Id, count: nat): Message {
    Message(id, 7, "", if id ==
      0 then None else Some(id - 1), if id == 0 then None else Some(0), None, id + 1, count, false, false)
  }

  lemma Snoc(steps: seq<Step>, i: nat)
    requires i < |steps|
    ensures Run(steps[..i + 1]) == Apply(Run(steps[..i]), steps[i])
  {
    assert steps[..i + 1][..i] == steps[..i];
  }

  lemma {:induction false} FindIs(log: Log, i: nat)
    requires i < |log| && forall k :: 0 <= k < i ==> log[k].id != log[i].id
    ensures Find(log, log[i].id) == Some(i)
  {
    if i > 0 {
      forall k | 0 <= k < i - 1 ensures log[1..][k].id != log[1..][i - 1].id {
        assert log[1..][k] == log[k + 1];
      }
      FindIs(log[1..], i - 1);
    }
  }

  /** A reply without a key, sent to a chat whose only thread is 0, is appended and counted. */
  lemma ReplyIs(db: Db, log: Log, to: nat)
    requires db == Db(map[1 := Room(log, |log|)], map[], |log|) && to < |log|
    requires forall k :: 0 <= k < |log| ==> log[k].id == k
    requires RootFor(log, Some(to)) == Some(0)
    ensures
      var m := Message(|log|, 7, "", Some(to), Some(0), None, |log| + 1, 0, false, false);
      var first := log[0].(replyCount := log[0].replyCount + 1);
      Apply(db, Send(1, 7, "", Some(to), "")) ==
        Db(map[1 := Room((log + [m])[0 := first], |log| + 1)], map[], |log| + 1)
  {
    var m := Message(|log|, 7, "", Some(to), Some(0), None, |log| + 1, 0, false, false);
    assert (log + [m])[0] == log[0];
    FindIs(log + [m], 0);
    hide Find, RootFor;
    assert Draft(db, 1, 7, "", Some(to), None).(number := |log| + 1) == m;
    var room := Appended(db.rooms[1], Draft(db, 1, 7, "", Some(to), None));
    assert room == Room((log + [m])[0 := log[0].(replyCount := log[0].replyCount + 1)], |log| + 1);
    assert db.rooms[1 := room] == map[1 := room];
  }

  lemma ChainBegins()
    ensures Run(CHAIN[..2]) == Db(map[1 := Room([Link(0, 0)], 1)], map[], 1)
  {
    assert CHAIN[..0] == [];
    Snoc(CHAIN, 0);
    Snoc(CHAIN, 1);
    var d := Db(map[1 := Room([], 0)], map[], 0);
    assert Run(CHAIN[..1]) == d;
    hide Run;
    var m := Draft(d, 1, 7, "", None, None);
    assert Appended(d.rooms[1], m) == Room([Link(0, 0)], 1);
    assert d.rooms[1 := Room([Link(0, 0)], 1)] == map[1 := Room([Link(0, 0)], 1)];
  }

  lemma RootForIs(log: Log, j: nat)
    requires j < |log| && forall k :: 0 <= k < |log| ==> log[k].id == k
    ensures RootFor(log, Some(j)) == if log[j].threadRoot.Some? then log[j].threadRoot else Some(j)
  {
    FindIs(log, j);
  }

  lemma ChainGrows()
    ensures Run(CHAIN[..3]) == Db(map[1 := Room([Link(0, 1), Link(1, 0)], 2)], map[], 2)
  {
    hide Run, Apply, Find, RootFor;
    ChainBegins();
    Snoc(CHAIN, 2);
    var one := [Link(0, 0)];
    RootForIs(one, 0);
    ReplyIs(Run(CHAIN[..2]), one, 0);
    assert (one + [Link(1, 0)])[0 := Link(0, 1)] == [Link(0, 1), Link(1, 0)];
  }

  lemma ChainEnds()
    ensures Run(CHAIN) == Db(map[1 := Room([Link(0, 2), Link(1, 0), Link(2, 0)], 3)], map[], 3)
  {
    hide Run, Apply, Find, RootFor;
    ChainGrows();
    Snoc(CHAIN, 3);
    assert CHAIN[..4] == CHAIN;
    var two := [Link(0, 1), Link(1, 0)];
    RootForIs(two, 1);
    ReplyIs(Run(CHAIN[..3]), two, 1);
    assert (two + [Link(2, 0)])[0 := Link(0, 2)] == [Link(0, 2), Link(1, 0), Link(2, 0)];
  }

  /** The thread of a reply that was itself answered is found empty. */
  lemma AnsweredReplyHasNoThread()
    ensures
      && 1 in Run(CHAIN).rooms && |Run(CHAIN).rooms[1].log| == 3
      && var log := Run(CHAIN).rooms[1].log;
         Descends(log, 2, 1) && forall i: nat :: i < 3 ==> !Indexed(log, i, 1)
  {
    hide Run, Find;
    ChainEnds();
    var log := Run(CHAIN).rooms[1].log;
    FindIs(log[..2], 1);
    assert Parent(log, 2) == Some(1);
  }

  // --- retries ---

  predicate IsPost(step: Step) { step.Send? || step.Forward? }

  /** What a post would store: a forward needs a source that is there and not deleted. */
  predicate Attempts(db: Db, step: Step) {
    step.Send? || (step.Forward? &&
      var j := Find(LogOf(db, step.from), step.id);
      j.Some? && !LogOf(db, step.from)[j.value].deleted)
  }

  /** The step adds a message to the chat it names. */
  predicate Stores(db: Db, step: Step) {
    IsPost(step) && |LogOf(Apply(db, step), step.c)| > |LogOf(db, step.c)|
  }

  /** The step stores a message under this sender and key. */
  predicate StoresUnder(db: Db, step: Step, sender: User, key: string) {
    Stores(db, step) && step.sender == sender && step.key == key
  }

  /** The message a post is answered with instead of being stored. */
  function Resolved(db: Db, step: Step): Option<Id>
    requires IsPost(step)
  {
    match Existing(db, step.c, step.sender, step.key)
    case None => None
    case Some(j) => Some(LogOf(db, step.c)[j].id)
  }

  /** The message a post that reaches the store brings along. */
  function DraftOf(db: Db, step: Step): Message
    requires Attempts(db, step)
  {
    match step
    case Send(c, sender, text, replyTo, _) => Draft(db, c, sender, text, replyTo, None)
    case Forward(c, sender, from, id, _) =>
      var src := LogOf(db, from)[Find(LogOf(db, from), id).value];
      Draft(db, c, sender, src.text, None, Some(OriginOf(from, src)))
  }

  lemma PostIs(db: Db, step: Step)
    requires IsPost(step)
    ensures Attempts(db, step) ==> Apply(db, step) == Posted(db, step.c, DraftOf(db, step), step.key)
    ensures Attempts(db, step) ==> DraftOf(db, step).id == db.nextId && DraftOf(db, step).sender == step.sender
    ensures !Attempts(db, step) ==> Apply(db, step) == db
  {
  }

  /** When a post is stored, and what that does to logs and keys. */
  lemma StoredExactlyWhen(db: Db, step: Step)
    requires IsPost(step)
    ensures Stores(db, step) <==> Attempts(db, step) && Resolved(db, step).None? && step.c in db.rooms
    ensures Stores(db, step) ==>
      var db' := Apply(db, step);
      && db'.rooms == db.rooms[step.c := Appended(db.rooms[step.c], DraftOf(db, step))]
      && db'.dedup == (if step.key != "" then db.dedup[(step.sender, step.key) := db.nextId] else db.dedup)
    ensures !Stores(db, step) ==> Apply(db, step).rooms == db.rooms && Apply(db, step).dedup == db.dedup
    ensures db.nextId <= Apply(db, step).nextId && (Stores(db, step) ==> db.nextId < Apply(db, step).nextId)
  {
    PostIs(db, step);
    hide Attempts, Existing, Appended, DraftOf;
    if Attempts(db, step) && step.c in db.rooms {
      AppendedLast(db.rooms[step.c], DraftOf(db, step));
    }
  }

  /** Any other step leaves the keys alone. */
  lemma OtherKeepsKeys(db: Db, step: Step)
    requires !IsPost(step)
    ensures Apply(db, step).dedup == db.dedup && Apply(db, step).nextId == db.nextId
  {
    hide Find;
  }

  /** Of the message first stored under a key: it is still in its chat, and the key names
      it, or a later message if `elsewhere`. */
  ghost predicate KeyNames(db: Db, c: ChatId, sender: User, key: string, id: Id, elsewhere: bool) {
    && id < db.nextId && Find(LogOf(db, c), id).Some? && (sender, key) in db.dedup
    && if elsewhere then id < db.dedup[(sender, key)] else id == db.dedup[(sender, key)]
  }

  lemma {:induction false} FindStays(log: Log, log': Log, id: Id)
    requires Grows(log, log') && Find(log, id).Some?
    ensures Find(log', id).Some?
  {
    var i := Find(log, id).value;
    assert SameBones(log[i], log'[i]);
  }

  lemma StepKeepsKey(db: Db, step: Step, c: ChatId, sender: User, key: string, id: Id, elsewhere: bool)
    requires Inv(db) && KeyNames(db, c, sender, key, id, elsewhere) && key != ""
    ensures
      var more := StoresUnder(db, step, sender, key) && step.c != c;
      KeyNames(Apply(db, step), c, sender, key, id, elsewhere || more)
  {
    hide Inv, Find, Apply, Stores, LogOf;
    MessageStays(db, step, c, id);
    KeyMoves(db, step, sender, key);
    if !elsewhere && StoresUnder(db, step, sender, key) {
      NotStoredAgain(db, step, c, id);
    }
  }

  lemma MessageStays(db: Db, step: Step, c: ChatId, id: Id)
    requires Inv(db) && Find(LogOf(db, c), id).Some?
    ensures Find(LogOf(Apply(db, step), c), id).Some?
  {
    StepKeepsInv(db, step);
    hide Inv, Apply;
    assert c in db.rooms;
    hide Find, Grows;
    FindStays(LogOf(db, c), LogOf(Apply(db, step), c), id);
  }

  lemma KeyMoves(db: Db, step: Step, sender: User, key: string)
    requires key != "" && (sender, key) in db.dedup
    ensures
      var db' := Apply(db, step);
      && (sender, key) in db'.dedup && db.nextId <= db'.nextId
      && (if StoresUnder(db, step, sender, key)
          then db'.dedup[(sender, key)] == db.nextId < db'.nextId
          else db'.dedup[(sender, key)] == db.dedup[(sender, key)])
  {
    if IsPost(step) {
      StoredExactlyWhen(db, step);
      hide Apply, Attempts, Stores, DraftOf, Appended;
    } else {
      OtherKeepsKeys(db, step);
      hide Apply;
    }
  }

  lemma NotStoredAgain(db: Db, step: Step, c: ChatId, id: Id)
    requires Stores(db, step) && step.key != "" && (step.sender, step.key) in db.dedup
    requires db.dedup[(step.sender, step.key)] == id && Find(LogOf(db, c), id).Some?
    ensures step.c != c
  {
    StoredExactlyWhen(db, step);
    hide Apply, Attempts, DraftOf, Appended, Find;
  }

  /** After run `a`, run `b` stored something under this sender and key in another chat. */
  ghost predicate StoredElsewhere(a: seq<Step>, b: seq<Step>, c: ChatId, sender: User, key: string) {
    exists i :: 0 <= i < |b| && StoresUnder(Run(a + b[..i]), b[i], sender, key) && b[i].c != c
  }

  lemma ElsewhereNext(a: seq<Step>, b: seq<Step>, c: ChatId, sender: User, key: string)
    requires b != []
    ensures
      var n := |b| - 1;
      StoredElsewhere(a, b, c, sender, key) <==>
        || StoredElsewhere(a, b[..n], c, sender, key)
        || (StoresUnder(Run(a + b[..n]), b[n], sender, key) && b[n].c != c)
  {
    hide StoresUnder, Run;
    var n := |b| - 1;
    forall i | 0 <= i < n ensures b[..n][..i] == b[..i] && b[..n][i] == b[i] {}
    if StoredElsewhere(a, b[..n], c, sender, key) {
      var i :| 0 <= i < n && StoresUnder(Run(a + b[..n][..i]), b[..n][i], sender, key) && b[..n][i].c != c;
      assert StoresUnder(Run(a + b[..i]), b[i], sender, key) && b[i].c != c;
    }
  }

  lemma NothingElsewhere(a: seq<Step>, c: ChatId, sender: User, key: string)
    ensures !StoredElsewhere(a, [], c, sender, key)
  {
  }

  lemma {:induction false} RunKeepsKey(a: seq<Step>, b: seq<Step>, c: ChatId, sender: User, key: string, id: Id)
    requires KeyNames(Run(a), c, sender, key, id, false) && key != ""
    ensures KeyNames(Run(a + b), c, sender, key, id, StoredElsewhere(a, b, c, sender, key))
  {
    hide *;
    if b == [] {
      assert a + b == a;
      NothingElsewhere(a, c, sender, key);
    } else {
      var n := |b| - 1;
      RunKeepsKey(a, b[..n], c, sender, key, id);
      RunKeepsInv(a + b[..n]);
      assert a + b == (a + b[..n]) + [b[n]];
      RunSnoc(a + b[..n], b[n]);
      ElsewhereNext(a, b, c, sender, key);
      StepKeepsKey(Run(a + b[..n]), b[n], c, sender, key, id, StoredElsewhere(a, b[..n], c, sender, key));
    }
  }

  lemma RunSnoc(steps: seq<Step>, step: Step)
    ensures Run(steps + [step]) == Apply(Run(steps), step)
  {
    assert (steps + [step])[..|steps|] == steps;
  }

  lemma StoredNames(db: Db, step: Step)
    requires Inv(db) && Stores(db, step) && step.key != ""
    ensures
      var log, log' := LogOf(db, step.c), LogOf(Apply(db, step), step.c);
      && |log'| == |log| + 1
      && KeyNames(Apply(db, step), step.c, step.sender, step.key, log'[|log|].id, false)
  {
    StoredExactlyWhen(db, step);
    PostIs(db, step);
    AppendedLast(db.rooms[step.c], DraftOf(db, step));
    hide Apply, Find, Appended, Attempts;
    var log' := LogOf(Apply(db, step), step.c);
    assert log'[|log'| - 1].id == db.nextId;
  }

  /**
   Idempotent sending, over every run. After a post with a key was stored in a chat, any
   later post there by the same sender with that key changes no log and resolves to the
   message first stored, if and only if nothing was stored under that sender and key in
   another chat in between.
   */
  lemma RetryRecognisedExactlyWhen(a: seq<Step>, post: Step, b: seq<Step>, retry: Step)
    requires Stores(Run(a), post) && post.key != ""
    requires IsPost(retry) && retry.c == post.c && retry.sender == post.sender && retry.key == post.key
    requires Attempts(Run(a + [post] + b), retry)
    ensures
      var log, log' := LogOf(Run(a), post.c), LogOf(Run(a + [post]), post.c);
      var db := Run(a + [post] + b);
      && |log'| == |log| + 1
      && (Run(a + [post] + b + [retry]).rooms == db.rooms && Resolved(db, retry) == Some(log'[|log|].id) <==>
            !StoredElsewhere(a + [post], b, post.c, post.sender, post.key))
  {
    var s, db := Run(a), Run(a + [post] + b);
    RunKeepsInv(a);
    RunSnoc(a, post);
    RunSnoc(a + [post] + b, retry);
    StoredNames(s, post);
    var id := LogOf(Run(a + [post]), post.c)[|LogOf(s, post.c)|].id;
    RunKeepsKey(a + [post], b, post.c, post.sender, post.key, id);
    StoredExactlyWhen(db, retry);
    hide Run, Inv, Stores, Attempts, Apply, StoredElsewhere;
  }

  /** The run: the same key in two chats, and a retry in the first. */
  const SAME_KEY: seq<Step> :=
    [OpenChat(1), OpenChat(2), Send(1, 7, "hi", None, "k"), Send(2, 7, "hi", None, "k"), Send(1, 7, "hi", None, "k")]

  function Hi(id: Id, number: nat): Message { Message(id, 7, "hi", None, None, None, number, 0, false, false) }

  lemma SameKeyBegins()
    ensures Run(SAME_KEY[..2]) == Db(map[1 := Room([], 0), 2 := Room([], 0)], map[], 0)
  {
    assert SAME_KEY[..0] == [];
    Snoc(SAME_KEY, 0);
    Snoc(SAME_KEY, 1);
    assert Run(SAME_KEY[..1]) == Db(map[1 := Room([], 0)], map[], 0);
    assert map[1 := Room([], 0)][2 := Room([], 0)] == map[1 := Room([], 0), 2 := Room([], 0)];
  }

  lemma HiIsStored(db: Db, c: ChatId)
    requires c in db.rooms && Existing(db, c, 7, "k").None?
    ensures Apply(db, Send(c, 7, "hi", None, "k")) ==
      var room := db.rooms[c];
      Db(db.rooms[c := Room(room.log + [Hi(db.nextId, room.lastSeq + 1)], room.lastSeq + 1)],
         db.dedup[(7, "k") := db.nextId], db.nextId + 1)
  {
  }

  const FIRST: Room := Room([Hi(0, 1)], 1)
  const SECOND: Room := Room([Hi(1, 1)], 1)

  lemma SameKeyOnce()
    ensures Run(SAME_KEY[..3]) == Db(map[1 := FIRST, 2 := Room([], 0)], map[(7, "k") := 0], 1)
  {
    SameKeyBegins();
    Snoc(SAME_KEY, 2);
    hide Run, Apply;
    HiIsStored(Run(SAME_KEY[..2]), 1);
    assert [] + [Hi(0, 1)] == [Hi(0, 1)];
    assert map[1 := Room([], 0), 2 := Room([], 0)][1 := FIRST] == map[1 := FIRST, 2 := Room([], 0)];
  }

  lemma SameKeyTwice()
    ensures Run(SAME_KEY[..4]) == Db(map[1 := FIRST, 2 := SECOND], map[(7, "k") := 1], 2)
  {
    SameKeyOnce();
    Snoc(SAME_KEY, 3);
    hide Run, Apply;
    HiIsStored(Run(SAME_KEY[..3]), 2);
    assert [] + [Hi(1, 1)] == [Hi(1, 1)];
    assert map[1 := FIRST, 2 := Room([], 0)][2 := SECOND] == map[1 := FIRST, 2 := SECOND];
    assert map[(7, "k") := 0][(7, "k") := 1] == map[(7, "k") := 1];
  }

  /** The retry is stored a second time. */
  lemma KeyReusedElsewhereStoresTwice()
    ensures 1 in Run(SAME_KEY).rooms && Run(SAME_KEY).rooms[1].log == [Hi(0, 1), Hi(2, 2)]
  {
    SameKeyTwice();
    Snoc(SAME_KEY, 4);
    assert SAME_KEY[..5] == SAME_KEY;
    hide Run, Apply;
    HiIsStored(Run(SAME_KEY[..4]), 1);
    assert [Hi(0, 1)] + [Hi(2, 2)] == [Hi(0, 1), Hi(2, 2)];
  }

  // --- what a message says ---

  /** The step that stored message `i` of the chat's log in this run. */
  ghost predicate StoredBy(steps: seq<Step>, j: nat, c: ChatId, i: nat) {
    j < |steps| && Stores(Run(steps[..j]), steps[j]) && steps[j].c == c && |LogOf(Run(steps[..j]), c)| == i
  }

  /** The last edit or deletion of a message. */
  function LastTouch(steps: seq<Step>, c: ChatId, id: Id): Option<Step> {
    if steps == [] then None
    else
      var step := steps[|steps| - 1];
      if Touches(step, c, id) then Some(step) else LastTouch(steps[..|steps| - 1], c, id)
  }

  predicate Touches(step: Step, c: ChatId, id: Id) {
    (step.Edit? || step.Delete?) && step.c == c && step.id == id
  }

  ghost predicate Edited(steps: seq<Step>, c: ChatId, id: Id) {
    exists i :: 0 <= i < |steps| && steps[i].Edit? && Touches(steps[i], c, id)
  }

  ghost predicate Deleted(steps: seq<Step>, c: ChatId, id: Id) {
    exists i :: 0 <= i < |steps| && steps[i] == Delete(c, id)
  }

  /** What the post of a message said. */
  function TextOf(db: Db, post: Step): string {
    match post
    case Send(_, _, text, _, _) => text
    case Forward(_, _, from, id, _) =>
      (match Find(LogOf(db, from), id)
       case None => ""
       case Some(j) => LogOf(db, from)[j].text)
    case _ => ""
  }

  /** Whom a forward credits: whoever its source credits, or the source itself. */
  function OriginIn(db: Db, post: Step): Origin
    requires post.Forward?
  {
    match Find(LogOf(db, post.from), post.id)
    case None => Origin(post.from, post.id, post.sender)
    case Some(j) =>
      var src := LogOf(db, post.from)[j];
      if src.forward.Some? then src.forward.value else Origin(post.from, post.id, src.sender)
  }

  /** What a message says after its post and these further steps. */
  ghost predicate Says(m: Message, db: Db, post: Step, later: seq<Step>)
    requires IsPost(post)
  {
    var last := LastTouch(later, post.c, m.id);
    && m.sender == post.sender && m.replyTo == (if post.Send? then post.replyTo else None)
    && m.forward == (if post.Forward? then Some(OriginIn(db, post)) else None)
    && m.text == (if last.None? then TextOf(db, post) else if last.value.Edit? then last.value.text else "")
    && (m.edited <==> Edited(later, post.c, m.id)) && (m.deleted <==> Deleted(later, post.c, m.id))
  }

  lemma NewSays(db: Db, step: Step)
    requires Inv(db) && Stores(db, step)
    ensures
      var log, log' := LogOf(db, step.c), LogOf(Apply(db, step), step.c);
      |log'| == |log| + 1 && log'[|log|].id == db.nextId && Says(log'[|log|], db, step, [])
  {
    StoredExactlyWhen(db, step);
    var m := DraftOf(db, step);
    var room := db.rooms[step.c];
    AppendedLast(room, m);
    assert SameWords(Appended(room, m).log[|room.log|], m);
    hide Apply, Appended, Inv, Find;
  }

  /** Everything but the number and the count. */
  predicate SameWords(m: Message, m': Message) {
    m'.(number := m.number, replyCount := m.replyCount) == m
  }

  /** The message after a step, as far as its words go. */
  function Rewritten(m: Message, step: Step, c: ChatId): Message {
    if !Touches(step, c, m.id) then m
    else if step.Edit? then m.(text := step.text, edited := true)
    else m.(text := "", deleted := true)
  }

  /** A step rewrites a message only by an edit or deletion of it. */
  lemma StepKeepsWords(db: Db, step: Step, c: ChatId, i: nat)
    requires Inv(db) && c in db.rooms && i < |db.rooms[c].log|
    ensures
      var m := db.rooms[c].log[i];
      && c in Apply(db, step).rooms && i < |Apply(db, step).rooms[c].log|
      && var m' := Apply(db, step).rooms[c].log[i];
         SameWords(m', Rewritten(m, step, c))
  {
    if IsPost(step) {
      PostKeepsWords(db, step, c, i);
    } else {
      var log := db.rooms[c].log;
      assert Increasing(log) by { assert RoomOk(db.rooms[c], db.nextId); }
      OtherKeepsWords(db, step, c, i);
    }
    hide *;
  }

  lemma PostKeepsWords(db: Db, step: Step, c: ChatId, i: nat)
    requires IsPost(step) && c in db.rooms && i < |db.rooms[c].log|
    ensures c in Apply(db, step).rooms && i < |Apply(db, step).rooms[c].log|
    ensures SameWords(Apply(db, step).rooms[c].log[i], Rewritten(db.rooms[c].log[i], step, c))
  {
    StoredExactlyWhen(db, step);
    hide Apply, Appended, Stores, Attempts, DraftOf;
    if c == step.c && Stores(db, step) {
      AppendKeepsWords(db.rooms[c], DraftOf(db, step), i);
    }
  }

  lemma OtherKeepsWords(db: Db, step: Step, c: ChatId, i: nat)
    requires !IsPost(step) && c in db.rooms && i < |db.rooms[c].log| && Increasing(db.rooms[c].log)
    ensures c in Apply(db, step).rooms && i < |Apply(db, step).rooms[c].log|
    ensures SameWords(Apply(db, step).rooms[c].log[i], Rewritten(db.rooms[c].log[i], step, c))
  {
    hide Find, Increasing;
    if (step.Edit? || step.Delete?) && step.c == c {
      ChangeTouchesOne(db.rooms[c].log, i, step.id);
    }
  }

  lemma ChangeTouchesOne(log: Log, i: nat, id: Id)
    requires Increasing(log) && i < |log|
    ensures Find(log, id) == Some(i) <==> log[i].id == id
  {
    if log[i].id == id {
      FindIs(log, i);
    }
  }

  lemma AppendKeepsWords(room: Room, m: Message, i: nat)
    requires i < |room.log|
    ensures i < |Appended(room, m).log| && SameWords(Appended(room, m).log[i], room.log[i])
  {
  }

  lemma SaysNext(m: Message, m': Message, db: Db, post: Step, later: seq<Step>, step: Step)
    requires IsPost(post) && Says(m, db, post, later)
    requires SameWords(m', Rewritten(m, step, post.c))
    ensures Says(m', db, post, later + [step])
  {
    var c, id, more := post.c, m.id, later + [step];
    assert more[..|later|] == later && more[|later|] == step;
    if Edited(later, c, id) {
      var i :| 0 <= i < |later| && later[i].Edit? && Touches(later[i], c, id);
      assert more[i] == later[i];
    }
    if Deleted(later, c, id) {
      var i :| 0 <= i < |later| && later[i] == Delete(c, id);
      assert more[i] == later[i];
    }
    hide TextOf;
  }

  /**
   In every run, every message was stored by a post to its chat; it keeps that post's
   sender and parent, and says what was last written: the post's own text, or the source's
   for a forward, the last edit, or nothing once deleted last. Its flags tell whether it
   was ever edited or deleted.
   */
  lemma {:induction false} MessageSaysWhatWasWritten(steps: seq<Step>, c: ChatId, i: nat) returns (j: nat)
    requires c in Run(steps).rooms && i < |Run(steps).rooms[c].log|
    ensures StoredBy(steps, j, c, i)
    ensures Says(Run(steps).rooms[c].log[i], Run(steps[..j]), steps[j], steps[j + 1..])
  {
    hide *;
    assert steps != [] by { RunNothing(steps); }
    var n := |steps| - 1;
    var before, step := steps[..n], steps[n];
    assert before + [step] == steps;
    RunSnoc(before, step);
    RunKeepsInv(before);
    var db := Run(before);
    if c in db.rooms && i < |db.rooms[c].log| {
      j := MessageSaysWhatWasWritten(before, c, i);
      StillSays(before, step, c, i, j);
    } else {
      j := n;
      NewIsStored(db, step, c, i);
      FirstSays(before, step, c, i);
    }
  }

  lemma RunNothing(steps: seq<Step>)
    ensures steps == [] ==> Run(steps).rooms == map[]
  {
  }

  lemma StillSays(before: seq<Step>, step: Step, c: ChatId, i: nat, j: nat)
    requires Inv(Run(before)) && c in Run(before).rooms && i < |Run(before).rooms[c].log|
    requires StoredBy(before, j, c, i)
    requires Says(Run(before).rooms[c].log[i], Run(before[..j]), before[j], before[j + 1..])
    ensures
      var steps := before + [step];
      && StoredBy(steps, j, c, i) && c in Run(steps).rooms && i < |Run(steps).rooms[c].log|
      && Says(Run(steps).rooms[c].log[i], Run(steps[..j]), steps[j], steps[j + 1..])
  {
    var steps, db := before + [step], Run(before);
    RunSnoc(before, step);
    hide Run, Inv, Apply, Says, LogOf, SameWords;
    StepKeepsWords(db, step, c, i);
    assert steps[..j] == before[..j] && steps[j] == before[j];
    assert steps[j + 1..] == before[j + 1..] + [step];
    SaysNext(db.rooms[c].log[i], Run(steps).rooms[c].log[i], Run(steps[..j]), steps[j], before[j + 1..], step);
  }

  lemma FirstSays(before: seq<Step>, step: Step, c: ChatId, i: nat)
    requires Inv(Run(before)) && Stores(Run(before), step) && step.c == c && |LogOf(Run(before), c)| == i
    ensures
      var steps, j := before + [step], |before|;
      && StoredBy(steps, j, c, i) && c in Run(steps).rooms && i < |Run(steps).rooms[c].log|
      && Says(Run(steps).rooms[c].log[i], Run(steps[..j]), steps[j], steps[j + 1..])
  {
    var steps := before + [step];
    RunSnoc(before, step);
    hide Run, Inv, Apply, Says;
    NewSays(Run(before), step);
    assert steps[..|before|] == before && steps[|before| + 1..] == [];
  }

  lemma NewIsStored(db: Db, step: Step, c: ChatId, i: nat)
    requires c in Apply(db, step).rooms && i < |Apply(db, step).rooms[c].log|
    requires !(c in db.rooms && i < |db.rooms[c].log|)
    ensures Stores(db, step) && step.c == c && |LogOf(db, c)| == i && IsPost(step)
  {
    if IsPost(step) {
      StoredExactlyWhen(db, step);
      if Stores(db, step) {
        AppendedLast(db.rooms[step.c], DraftOf(db, step));
      }
      hide Apply, Appended, Attempts, DraftOf;
    } else {
      hide Find;
    }
  }

  // --- reading a thread in pages ---

  function Under(log: Log, root: Id, after: nat): seq<Message> {
    if log == [] then []
    else
      var m := log[|log| - 1];
      Under(log[..|log| - 1], root, after) + if m.threadRoot == Some(root) && m.number > after then [m] else []
  }

  function FirstOf(s: seq<Message>, limit: nat): seq<Message> { if |s| <= limit then s else s[..limit] }

  /** Reading on after an entry's number continues exactly behind it. */
  lemma {:induction false} ThreadContinues(log: Log, root: Id, after: nat, j: nat)
    requires Increasing(log) && j < |Under(log, root, after)|
    ensures Under(log, root, Under(log, root, after)[j].number) == Under(log, root, after)[j + 1..]
  {
    var n := |log| - 1;
    var u, v := Under(log, root, after), Under(log[..n], root, after);
    UnderIs(log[..n], root, after);
    if j < |v| {
      ThreadContinues(log[..n], root, after, j);
      assert v[j] == u[j] && v[j] in v;
    } else {
      NothingAfter(log[..n], root, log[n].number);
    }
  }

  lemma {:induction false} UnderIs(log: Log, root: Id, after: nat)
    ensures forall m :: m in Under(log, root, after) <==> m in log && m.threadRoot == Some(root) && m.number > after
  {
    if log != [] {
      UnderIs(log[..|log| - 1], root, after);
      assert log == log[..|log| - 1] + [log[|log| - 1]];
    }
  }

  lemma {:induction false} NothingAfter(log: Log, root: Id, after: nat)
    requires forall i :: 0 <= i < |log| ==> log[i].number <= after
    ensures Under(log, root, after) == []
  {
    if log != [] {
      NothingAfter(log[..|log| - 1], root, after);
    }
  }

  lemma {:induction false} UnderGrows(log: Log, k: nat, root: Id, after: nat)
    requires k <= |log|
    ensures Under(log[..k], root, after) <= Under(log, root, after)
  {
    if k < |log| {
      UnderGrows(log[..|log| - 1], k, root, after);
      assert log[..|log| - 1][..k] == log[..k];
    } else {
      assert log[..k] == log;
    }
  }

  // --- the service ---

  const DEFAULT_THREAD_PAGE: nat := 50

  method ThreadRows(log: Log, root: Id, after: nat, limit: nat) returns (out: seq<Message>)
    requires limit > 0
    ensures out == FirstOf(Under(log, root, after), limit)
    ensures |out| <= limit && out <= Under(log, root, after)
    ensures |out| < limit ==> out == Under(log, root, after)
  {
    out := [];
    for i := 0 to |log|
      invariant out == Under(log[..i], root, after) && |out| < limit
    {
      assert log[..i + 1][..i] == log[..i];
      if log[i].threadRoot != Some(root) || log[i].number <= after {
        continue;
      }
      out := out + [log[i]];
      if |out| >= limit {
        UnderGrows(log, i + 1, root, after);
        return;
      }
    }
    assert log[..|log|] == log;
  }

  datatype Outcome = Ok(m: Message) | Duplicate(m: Message) | Forbidden | NotFound

  class Service {
    var rooms: map<ChatId, Room>
    var dedup: map<(User, string), Id>
    var nextId: Id

    ghost function Model(): Db
      reads this
    {
      Db(rooms, dedup, nextId)
    }

    method Position(log: Log, id: Id) returns (r: Option<nat>)
      ensures r == Find(log, id)
    {
      for i := 0 to |log|
        invariant forall k :: 0 <= k < i ==> log[k].id != id
        invariant Find(log, id) == ShiftBy(Find(log[i..], id), i)
      {
        assert log[i..][1..] == log[i + 1..];
        if log[i].id == id {
          return Some(i);
        }
      }
      r := None;
    }

    method GetMessage(c: ChatId, id: Id) returns (r: Option<Message>)
      ensures r.Some? <==> Find(LogOf(Model(), c), id).Some?
      ensures r.Some? ==> r.value == LogOf(Model(), c)[Find(LogOf(Model(), c), id).value]
    {
      var log := if c in rooms then rooms[c].log else [];
      var p := Position(log, id);
      r := if p.Some? then Some(log[p.value]) else None;
    }

    /** Appends under the next number, unless the sender's key already names a message here. */
    method InsertMessage(c: ChatId, m: Message, key: string) returns (r: Outcome)
      modifies this`rooms, this`dedup
      ensures Model() == Inserted(old(Model()), c, m, key)
      ensures
        var e := Existing(old(Model()), c, m.sender, key);
        r == if e.Some? then Duplicate(LogOf(old(Model()), c)[e.value])
             else if c !in old(rooms) then NotFound else Ok(m.(number := old(rooms)[c].lastSeq + 1))
    {
      if key != "" && (m.sender, key) in dedup {
        var e := GetMessage(c, dedup[(m.sender, key)]);
        if e.Some? {
          return Duplicate(e.value);
        }
      }
      if c !in rooms {
        return NotFound;
      }
      var seqNo := rooms[c].lastSeq + 1;
      var stored := m.(number := seqNo);
      var log := rooms[c].log + [stored];
      if m.threadRoot.Some? {
        var p := Position(log, m.threadRoot.value);
        if p.Some? {
          log := log[p.value := log[p.value].(replyCount := log[p.value].replyCount + 1)];
        }
      }
      rooms := rooms[c := Room(log, seqNo)];
      if key != "" {
        dedup := dedup[(m.sender, key) := m.id];
      }
      r := Ok(stored);
    }

    /** Send, with the origin Forward passes on; a retry and a missing chat use up an id. */
    method Post(c: ChatId, sender: User, text: string, replyTo: Option<Id>, fwd: Option<Origin>, key: string,
                canPost: bool)
      returns (r: Outcome)
      modifies this
      ensures r == Forbidden <==> !canPost
      ensures !canPost ==> Model() == old(Model())
      ensures canPost ==> Model() == Posted(old(Model()), c, Draft(old(Model()), c, sender, text, replyTo, fwd), key)
      ensures canPost ==> (r.Duplicate? <==> Existing(old(Model()), c, sender, key).Some?)
      ensures canPost ==> (r.Ok? <==> !r.Duplicate? && c in old(rooms))
      ensures r.Duplicate? ==> r.m == LogOf(old(Model()), c)[Existing(old(Model()), c, sender, key).value]
      ensures r.Ok? ==>
        && c in old(rooms)
        && r.m == Draft(old(Model()), c, sender, text, replyTo, fwd).(number := old(rooms)[c].lastSeq + 1)
    {
      if !canPost {
        return Forbidden;
      }
      var m := Message(nextId, sender, text, replyTo, None, fwd, 0, 0, false, false);
      nextId := nextId + 1;
      if replyTo.Some? {
        var parent := GetMessage(c, replyTo.value);
        if parent.Some? {
          var p := parent.value;
          m := m.(threadRoot := if p.threadRoot.Some? then p.threadRoot else Some(p.id));
        }
      }
      assert m == Draft(old(Model()), c, sender, text, replyTo, fwd);
      r := InsertMessage(c, m, key);
    }

    method SendMessage(c: ChatId, sender: User, text: string, replyTo: Option<Id>, key: string, canPost: bool)
      returns (r: Outcome)
      modifies this
      ensures Model() == if canPost then Apply(old(Model()), Send(c, sender, text, replyTo, key)) else old(Model())
      ensures r == Forbidden <==> !canPost
      ensures canPost ==> (r.Duplicate? <==> Existing(old(Model()), c, sender, key).Some?)
      ensures canPost ==> (r.Ok? <==> !r.Duplicate? && c in old(rooms))
      ensures canPost ==> (r.Ok? <==> Stores(old(Model()), Send(c, sender, text, replyTo, key)))
      ensures r.Duplicate? ==>
        Resolved(old(Model()), Send(c, sender, text, replyTo, key)) == Some(r.m.id) && r.m in LogOf(old(Model()), c)
    {
      StoredExactlyWhen(Model(), Send(c, sender, text, replyTo, key));
      r := Post(c, sender, text, replyTo, None, key, canPost);
    }

    method ForwardMessage(user: User, from: ChatId, id: Id, c: ChatId, key: string, isMember: bool, canPost: bool)
      returns (r: Outcome)
      modifies this
      ensures Model() ==
        if isMember && canPost then Apply(old(Model()), Forward(c, user, from, id, key)) else old(Model())
      ensures
        var p := Find(LogOf(old(Model()), from), id);
        var there := p.Some? && !LogOf(old(Model()), from)[p.value].deleted;
        && (r == Forbidden <==> !isMember || (there && !canPost))
        && (isMember && !there ==> r == NotFound)
    {
      if !isMember {
        return Forbidden;
      }
      var src := GetMessage(from, id);
      if src.None? || src.value.deleted {
        return NotFound;
      }
      var origin := Origin(from, src.value.id, src.value.sender);
      if src.value.forward.Some? {
        origin := src.value.forward.value;
      }
      r := Post(c, user, src.value.text, None, Some(origin), key, canPost);
    }

    /** The replies under a root, oldest first, after a number. */
    method Thread(c: ChatId, root: Id, after: nat, limit: int, isMember: bool) returns (r: Option<seq<Message>>)
      ensures r.None? <==> !isMember
      ensures r.Some? ==>
        var most, all := if limit <= 0 then DEFAULT_THREAD_PAGE else limit, Under(LogOf(Model(), c), root, after);
        |r.value| <= most && r.value <= all && (|r.value| < most ==> r.value == all)
    {
      if !isMember {
        return None;
      }
      var out := ThreadRows(if c in rooms then rooms[c].log else [], root, after,
                            if limit <= 0 then DEFAULT_THREAD_PAGE else limit);
      r := Some(out);
    }

    /** Only the sender may edit. */
    method EditMessage(user: User, c: ChatId, id: Id, text: string) returns (r: Outcome)
      modifies this`rooms
      ensures r == NotFound <==> Find(LogOf(old(Model()), c), id).None?
      ensures
        var p := Find(LogOf(old(Model()), c), id);
        r.Ok? <==> p.Some? && LogOf(old(Model()), c)[p.value].sender == user
      ensures r.Ok? ==> Model() == Apply(old(Model()), Edit(c, id, text))
      ensures !r.Ok? ==> Model() == old(Model())
    {
      var p := Position(if c in rooms then rooms[c].log else [], id);
      if p.None? {
        return NotFound;
      }
      var m := rooms[c].log[p.value];
      if m.sender != user {
        return Forbidden;
      }
      m := m.(text := text, edited := true);
      rooms := rooms[c := rooms[c].(log := rooms[c].log[p.value := m])];
      r := Ok(m);
    }

    /** The sender, or somebody who may moderate the chat, leaves a tombstone. */
    method DeleteMessage(user: User, c: ChatId, id: Id, canModerate: bool) returns (r: Outcome)
      modifies this`rooms
      ensures r == NotFound <==> Find(LogOf(old(Model()), c), id).None?
      ensures
        var p := Find(LogOf(old(Model()), c), id);
        r.Ok? <==> p.Some? && (LogOf(old(Model()), c)[p.value].sender == user || canModerate)
      ensures r.Ok? ==> Model() == Apply(old(Model()), Delete(c, id))
      ensures !r.Ok? ==> Model() == old(Model())
    {
      var p := Position(if c in rooms then rooms[c].log else [], id);
      if p.None? {
        return NotFound;
      }
      var m := rooms[c].log[p.value];
      if m.sender != user && !canModerate {
        return Forbidden;
      }
      m := m.(text := "", deleted := true);
      rooms := rooms[c := rooms[c].(log := rooms[c].log[p.value := m])];
      r := Ok(m);
    }
  }

  function ShiftBy(r: Option<nat>, i: nat): Option<nat> { if r.Some? then Some(r.value + i) else None }
}
