/**
 Joining and role changes. Rights and the last-owner rule are decided from roles read
 through the chat service's cache; only the owner count comes from the store.
 */
module Invites {
  import opened Wrappers
  import opened ChatService

  datatype Result = Done | Forbidden | LastOwner | NotFound | InvalidLink

  /** An invite link; 0 means no deadline and no cap. */
  datatype Link = Link(chatID: string, expiresAt: int, maxUses: nat, uses: nat, revoked: bool)

  function Rank(r: Role): nat {
    match r
    case Owner => 3
    case Admin => 2
    case Member => 1
  }

  function Owners(members: Roles): set<string> {
    set u | u in members && members[u] == Owner
  }

  predicate Outranked(seen: Roles, actorID: string, min: Role) {
    RoleIn(seen, actorID).None? || Rank(seen[actorID]) < Rank(min)
  }

  /**
   What SetRole decides from the roles it sees and the owner count. A role that is
   none of the three is None.
   */
  function Verdict(seen: Roles, owners: nat, actorID: string, targetID: string, role: Option<Role>): Result {
    if Outranked(seen, actorID, Owner) then Forbidden
    else if role.None? then Forbidden
    else if role.value != Owner && targetID !in seen then Forbidden
    else if role.value != Owner && seen[targetID] == Owner && owners <= 1 then LastOwner
    else Done
  }

  /** SetRole on the store, when what it sees is what the store holds. */
  function RoleChanged(chats: map<string, Chat>, chatID: string, actorID: string, targetID: string,
                       role: Option<Role>): (map<string, Chat>, Result) {
    if chatID !in chats then (chats, NotFound)
    else
      var members := chats[chatID].members;
      var v := Verdict(members, |Owners(members)|, actorID, targetID, role);
      if v != Done then (chats, v)
      else if targetID !in members then (chats, NotFound)
      else (WithMember(chats, chatID, targetID, role.value), Done)
  }

  predicate Usable(l: Link, now: int) {
    && !l.revoked
    && !(l.expiresAt != 0 && l.expiresAt <= now)
    && !(l.maxUses != 0 && l.uses >= l.maxUses)
  }

  ghost predicate CapsHold(links: map<string, Link>) {
    forall c :: c in links && links[c].maxUses != 0 ==> links[c].uses <= links[c].maxUses
  }

  /** A join by somebody who may already be in. */
  function Joined(chats: map<string, Chat>, chatID: string, userID: string): (r: map<string, Chat>)
    requires chatID in chats
    ensures chatID in r && userID in r[chatID].members
    ensures RoleIn(r[chatID].members, userID) ==
      if userID in chats[chatID].members then Some(chats[chatID].members[userID]) else Some(Member)
    ensures r == chats[chatID := chats[chatID].(members := chats[chatID].members[userID := r[chatID].members[userID]])]
  {
    assert userID in chats[chatID].members ==>
      var m := chats[chatID].members;
      m[userID := m[userID]] == m && chats[chatID := chats[chatID]] == chats;
    if userID in chats[chatID].members then chats else WithMember(chats, chatID, userID, Member)
  }

  class Service {
    const chat: ChatService.Service
    var links: map<string, Link>
    var handles: map<string, string>     // public handle -> chat id

    ghost predicate Valid()
      reads this, chat
    {
      chat.Valid() && CapsHold(links)
    }

    constructor (chat: ChatService.Service)
      requires chat.Valid()
      ensures Valid() && this.chat == chat && links == map[] && handles == map[]
    {
      this.chat, links, handles := chat, map[], map[];
    }

    /** requireRole: an unknown chat is an error of its own. */
    method RequireRole(chatID: string, actorID: string, min: Role, now: int) returns (r: Result)
      requires Valid()
      modifies chat`cache, chat`roleCache, chat`lastSweep
      ensures Valid()
      ensures r == if chatID !in chat.chats then NotFound
                   else if Outranked(chat.chats[chatID].members, actorID, min) then Forbidden else Done
    {
      var typ, role := chat.RoleOf(chatID, actorID, now);
      if typ.None? {
        return NotFound;
      }
      if role.None? || Rank(role.value) < Rank(min) {
        return Forbidden;
      }
      r := Done;
    }

    method SetRole(chatID: string, actorID: string, targetID: string, role: Option<Role>, now: int) returns (r: Result)
      requires Valid()
      modifies chat
      ensures Valid()
      ensures (chat.chats, r) == RoleChanged(old(chat.chats), chatID, actorID, targetID, role)
      ensures chatID !in old(chat.chats) ==> r == NotFound
      ensures chatID in old(chat.chats) ==>
        var members := old(chat.chats)[chatID].members;
        var byOwner := actorID in members && members[actorID] == Owner;
        && (r == Done <==>
              && byOwner && role.Some? && targetID in members
              && (role == Some(Owner) || members[targetID] != Owner || |Owners(members)| > 1))
        && (r == LastOwner <==>
              && byOwner && role.Some? && targetID in members
              && role != Some(Owner) && members[targetID] == Owner && |Owners(members)| <= 1)
        && (r == NotFound <==> byOwner && role == Some(Owner) && targetID !in members)
        && r in {Done, LastOwner, NotFound, Forbidden}
      ensures r != Done ==> chat.chats == old(chat.chats)
      ensures r == Done ==>
        var was := old(chat.chats)[chatID];
        chat.chats == old(chat.chats)[chatID := was.(members := was.members[targetID := role.value])]
    {
      hide ViewsAgree, MemosAgree;
      r := RequireRole(chatID, actorID, Owner, now);
      if r != Done {
        return;
      }
      if role.None? {
        return Forbidden;
      }
      if role.value != Owner {
        var _, targetRole := chat.RoleOf(chatID, targetID, now);
        if targetRole.None? {
          return Forbidden;
        }
        if targetRole.value == Owner {
          var owners := |Owners(chat.chats[chatID].members)|;
          if owners <= 1 {
            return LastOwner;
          }
        }
      }
      var ok := chat.SetMemberRole(chatID, targetID, role.value);
      r := if ok then Done else NotFound;
    }

    /** Join by link: a member spends nothing, anybody else spends one use. */
    method Join(code: string, userID: string, now: int) returns (r: Result)
      requires Valid()
      modifies this`links, chat
      ensures Valid()
      ensures r == Done <==>
        && code in old(links) && old(links)[code].chatID in old(chat.chats)
        && var l := old(links)[code];
           || userID in old(chat.chats)[l.chatID].members
           || (!l.revoked && (l.expiresAt == 0 || now < l.expiresAt) && (l.maxUses == 0 || l.uses < l.maxUses))
      ensures r == Done ==> chat.chats == Joined(old(chat.chats), old(links)[code].chatID, userID)
      ensures r == Done && userID in old(chat.chats)[old(links)[code].chatID].members ==> links == old(links)
      ensures r == Done && userID !in old(chat.chats)[old(links)[code].chatID].members ==>
        links == old(links)[code := old(links)[code].(uses := old(links)[code].uses + 1)]
      ensures r != Done ==> chat.chats == old(chat.chats) && links == old(links)
    {
      hide ViewsAgree, MemosAgree;
      if code !in links {
        return InvalidLink;
      }
      var typ, role := chat.RoleOf(links[code].chatID, userID, now);
      if typ.None? {
        return NotFound;
      }
      if role.Some? {
        return Done;
      }
      if !Usable(links[code], now) {
        return InvalidLink;
      }
      links := links[code := links[code].(uses := links[code].uses + 1)];
      var _ := chat.AddMember(links[code].chatID, userID, Member);
      r := Done;
    }

    method JoinPublic(handle: string, userID: string, now: int) returns (r: Result)
      requires Valid()
      modifies chat
      ensures Valid()
      ensures r == Done <==> handle in handles && handles[handle] in old(chat.chats)
      ensures chat.chats == if r == Done then Joined(old(chat.chats), handles[handle], userID) else old(chat.chats)
    {
      if handle !in handles {
        return NotFound;
      }
      var typ, role := chat.RoleOf(handles[handle], userID, now);
      if typ.None? {
        return NotFound;
      }
      if role.None? {
        var _ := chat.AddMember(handles[handle], userID, Member);
      }
      r := Done;
    }
  }
}

/**
 Every run of chat creation, role changes and joins, with the cached views in the
 state. The writer behind SetRole either goes through the chat service, which drops
 the view, or is the raw store, which does not.
 */
module OwnerRuns {
  import opened Wrappers
  import opened ChatService
  import opened Invites

  datatype Writer = ThroughService | RawStore

  datatype State = State(chats: map<string, Chat>, views: map<string, Roles>)

  datatype Op =
    | Create(chatID: string, ownerID: string, typ: ChatType, members: seq<string>)
    | SetRole(chatID: string, actorID: string, targetID: string, role: Option<Role>)
    | Join(chatID: string, userID: string)
    | Expire(chatID: string)

  /** The roles a question about the chat is answered from. */
  function Seen(s: State, chatID: string): Roles
    requires chatID in s.chats
  {
    if chatID in s.views then s.views[chatID] else s.chats[chatID].members
  }

  function Looked(s: State, chatID: string): State
    requires chatID in s.chats
  {
    s.(views := s.views[chatID := Seen(s, chatID)])
  }

  function Dropped(s: State, chatID: string): State { s.(views := s.views - {chatID}) }

  function Allows(s: State, chatID: string, actorID: string, targetID: string, role: Option<Role>): bool
    requires chatID in s.chats
  {
    && Verdict(Seen(s, chatID), |Owners(s.chats[chatID].members)|, actorID, targetID, role) == Done
    && targetID in s.chats[chatID].members
  }

  function Apply(w: Writer, s: State, op: Op): State {
    match op
    case Create(id, ownerID, typ, members) =>
      if id in s.chats then s
      else Dropped(s.(chats := s.chats[id := Chat(typ, Founded(ownerID, members))]), id)
    case SetRole(id, actorID, targetID, role) =>
      if id !in s.chats then s
      else if !Allows(s, id, actorID, targetID, role) then Looked(s, id)
      else
        var s' := Looked(s, id).(chats := WithMember(s.chats, id, targetID, role.value));
        if w.ThroughService? then Dropped(s', id) else s'
    case Join(id, userID) =>
      if id !in s.chats then s
      else if userID in Seen(s, id) then Looked(s, id)
      else Dropped(s.(chats := WithMember(s.chats, id, userID, Member)), id)
    case Expire(id) => Dropped(s, id)
  }

  function Run(w: Writer, ops: seq<Op>): State {
    if ops == [] then State(map[], map[])
    else Apply(w, Run(w, ops[..|ops| - 1]), ops[|ops| - 1])
  }

  ghost predicate Owned(s: State) {
    forall c :: c in s.chats ==> Owners(s.chats[c].members) != {}
  }

  ghost predicate Current(s: State) {
    forall c :: c in s.views ==> c in s.chats && s.views[c] == s.chats[c].members
  }

  /** With current views a role change is what the invite service's SetRole does. */
  lemma RoleChangeAgrees(s: State, id: string, actorID: string, targetID: string, role: Option<Role>)
    requires Current(s)
    ensures Apply(ThroughService, s, SetRole(id, actorID, targetID, role)).chats
         == RoleChanged(s.chats, id, actorID, targetID, role).0
  {
    if id in s.chats {
      assert Seen(s, id) == s.chats[id].members;
    }
  }

  /** The role of somebody in a chat; none without one. */
  function RoleAt(s: State, c: string, u: string): Option<Role> {
    if c in s.chats && u in s.chats[c].members then Some(s.chats[c].members[u]) else None
  }

  /** What a chat starts with: its owner, and everybody else named as a plain member. */
  function FirstRole(op: Op, u: string): Option<Role>
    requires op.Create?
  {
    if u == op.ownerID then Some(Owner) else if u in op.members then Some(Member) else None
  }

  /** A step that may give `u` the role `after` in chat `c`. */
  predicate MayGive(s: State, op: Op, c: string, u: string, after: Option<Role>) {
    match op
    case Create(id, _, _, _) => id == c && c !in s.chats && after == FirstRole(op, u)
    case Join(id, user) => id == c && user == u && c in s.chats && u !in Seen(s, c) && after == Some(Member)
    case SetRole(id, actorID, targetID, role) =>
      && id == c && targetID == u && c in s.chats && u in s.chats[c].members && after == role
      && RoleIn(Seen(s, c), actorID) == Some(Owner)
    case Expire(_) => false
  }

  lemma StepGivesRole(w: Writer, s: State, op: Op, c: string, u: string)
    requires RoleAt(Apply(w, s, op), c, u) != RoleAt(s, c, u)
    ensures MayGive(s, op, c, u, RoleAt(Apply(w, s, op), c, u))
  {
    hide Owners, Seen;
    match op
    case Create(id, ownerID, typ, members) =>
    case SetRole(id, actorID, targetID, role) => hide Founded;
    case Join(id, userID) => hide Founded;
    case Expire(id) =>
  }

  /**
   Who may change roles. In every run, with either writer, a role changes only by founding
   the chat, by joining it as a plain member, or by a role change whose actor the view
   shows as an owner; and through the service that actor is an owner in the store.
   */
  lemma RolesChangeOnlyByOwners(w: Writer, ops: seq<Op>, op: Op, c: string, u: string)
    requires RoleAt(Run(w, ops + [op]), c, u) != RoleAt(Run(w, ops), c, u)
    ensures MayGive(Run(w, ops), op, c, u, RoleAt(Run(w, ops + [op]), c, u))
    ensures w.ThroughService? && op.SetRole? ==> RoleAt(Run(w, ops), c, op.actorID) == Some(Owner)
  {
    hide Apply;
    assert (ops + [op])[..|ops|] == ops;
    StepGivesRole(w, Run(w, ops), op, c, u);
    if w.ThroughService? {
      RunKeepsOwners(ops);
    }
    hide Run, Owned;
  }

  /** Founding a chat and joining one take effect, whatever is cached. */
  lemma FoundersAndJoinersGetTheirRole(ops: seq<Op>, op: Op, u: string)
    requires op.Create? || op.Join?
    ensures
      var s, s' := Run(ThroughService, ops), Run(ThroughService, ops + [op]);
      && (op.Create? && op.chatID !in s.chats ==> RoleAt(s', op.chatID, u) == FirstRole(op, u))
      && (op.Join? && op.chatID in s.chats && u == op.userID ==>
            RoleAt(s', op.chatID, u) == if RoleAt(s, op.chatID, u).Some? then RoleAt(s, op.chatID, u) else Some(Member))
  {
    assert (ops + [op])[..|ops|] == ops;
    RunKeepsOwners(ops);
    hide Run, Owned, Owners;
  }

  /** What one write to one member does to the owners. */
  lemma OwnersAfter(members: Roles, userID: string, role: Role)
    ensures Owners(members[userID := role]) ==
      if role == Owner then Owners(members) + {userID} else Owners(members) - {userID}
  {
  }

  lemma OneOwnerLeft(owners: set<string>, userID: string)
    requires owners != {} && |owners| > 1
    ensures owners - {userID} != {}
  {
    if owners - {userID} == {} {
      assert owners <= {userID};
      SubsetSize(owners, {userID});
    }
  }

  /** A write that promotes, misses the owners, or leaves another one keeps one. */
  lemma WriteKeepsOwner(members: Roles, userID: string, role: Role)
    requires Owners(members) != {}
    requires role == Owner || RoleIn(members, userID) != Some(Owner) || |Owners(members)| > 1
    ensures Owners(members[userID := role]) != {}
  {
    OwnersAfter(members, userID, role);
    if role == Owner {
      assert userID in Owners(members[userID := role]);
    } else if userID in Owners(members) {
      OneOwnerLeft(Owners(members), userID);
    } else {
      assert Owners(members) - {userID} == Owners(members);
    }
  }

  lemma StepKeepsOwners(s: State, op: Op)
    requires Owned(s) && Current(s)
    ensures Owned(Apply(ThroughService, s, op)) && Current(Apply(ThroughService, s, op))
  {
    match op
    case Create(id, ownerID, typ, members) =>
      assert ownerID in Owners(Founded(ownerID, members));
      hide Owners, Founded;
    case SetRole(id, actorID, targetID, role) =>
      hide Owners;
      if id in s.chats && Allows(s, id, actorID, targetID, role) {
        assert Seen(s, id) == s.chats[id].members;
        WriteKeepsOwner(s.chats[id].members, targetID, role.value);
      }
    case Join(id, userID) =>
      hide Owners;
      if id in s.chats && userID !in Seen(s, id) {
        assert Seen(s, id) == s.chats[id].members;
        WriteKeepsOwner(s.chats[id].members, userID, Member);
      }
    case Expire(id) => hide Owners;
  }

  lemma {:induction false} RunKeepsOwners(ops: seq<Op>)
    ensures Owned(Run(ThroughService, ops)) && Current(Run(ThroughService, ops))
  {
    if ops != [] {
      RunKeepsOwners(ops[..|ops| - 1]);
      StepKeepsOwners(Run(ThroughService, ops[..|ops| - 1]), ops[|ops| - 1]);
    }
  }

  /**
   When role changes go through the chat service, every chat keeps at least one
   owner through every run, although the checks read the cached views: in every
   reachable state each view is what the store holds.
   */
  lemma EveryChatKeepsAnOwner(ops: seq<Op>)
    ensures
      var s := Run(ThroughService, ops);
      && (forall c :: c in s.chats ==> Owners(s.chats[c].members) != {})
      && (forall c :: c in s.views ==> c in s.chats && s.views[c] == s.chats[c].members)
  {
    RunKeepsOwners(ops);
  }

  /**
   Whatever the views hold, a role change takes a chat's last owner away exactly when
   the target is its only owner, the view shows the actor as an owner, and the view
   does not show the target as one.
   */
  lemma LastOwnerLostExactlyWhen(w: Writer, s: State, id: string, actorID: string, targetID: string, role: Option<Role>)
    requires id in s.chats && Owners(s.chats[id].members) != {}
    ensures
      var seen := Seen(s, id);
      Owners(Apply(w, s, SetRole(id, actorID, targetID, role)).chats[id].members) == {} <==>
        && Owners(s.chats[id].members) == {targetID}
        && RoleIn(seen, actorID) == Some(Owner)
        && role.Some? && role.value != Owner
        && targetID in seen && seen[targetID] != Owner
  {
    var members := s.chats[id].members;
    var s' := Apply(w, s, SetRole(id, actorID, targetID, role));
    if Allows(s, id, actorID, targetID, role) {
      assert s'.chats[id].members == members[targetID := role.value];
      OwnersAfter(members, targetID, role.value);
      if role.value == Owner {
        assert targetID in Owners(members) + {targetID};
      } else if Owners(members) - {targetID} == {} {
        assert Owners(members) == {targetID};
      } else {
        assert Owners(members) != {targetID};
      }
    } else {
      assert s'.chats[id] == s.chats[id];
      if Owners(members) == {targetID} { assert targetID in Owners(members); }
    }
  }

  /**
   With the raw store as writer the rule fails: an owner promotes a second one, steps
   down, and, still an owner in the stale view, demotes the other, whom the view
   still shows as a plain member.
   */
  lemma RawStoreLosesLastOwner()
    ensures
      var s := Run(RawStore, StaleDemotion());
      "1" in s.chats && Owners(s.chats["1"].members) == {}
  {
    var ops := StaleDemotion();
    RunFour(RawStore, ops[0], ops[1], ops[2], ops[3]);
    var s3 := StaleState();
    assert Apply(RawStore, Apply(RawStore, Apply(RawStore, State(map[], map[]), ops[0]), ops[1]), ops[2]) == s3;
    assert Owners(s3.chats["1"].members) == {"b"};
    LastOwnerLostExactlyWhen(RawStore, s3, "1", "a", "b", Some(Member));
  }

  /** After the first three steps: the view is still the founding one. */
  function StaleState(): (s: State)
    ensures
      var ops := StaleDemotion();
      s == Apply(RawStore, Apply(RawStore, Apply(RawStore, State(map[], map[]), ops[0]), ops[1]), ops[2])
  {
    var founded: Roles := map["a" := Owner, "b" := Member];
    var two: Roles := map["a" := Owner, "b" := Owner];
    assert Founded("a", ["b"]) == founded;
    assert founded["b" := Owner] == two && Owners(two) == {"a", "b"};
    assert two["a" := Member] == map["a" := Member, "b" := Owner];
    State(map["1" := Chat(Group, map["a" := Member, "b" := Owner])], map["1" := founded])
  }

  lemma RunFour(w: Writer, a: Op, b: Op, c: Op, d: Op)
    ensures Run(w, [a, b, c, d]) == Apply(w, Apply(w, Apply(w, Apply(w, State(map[], map[]), a), b), c), d)
  {
    hide Apply;
    assert [a, b, c, d][..3] == [a, b, c] && [a, b, c][..2] == [a, b] && [a, b][..1] == [a] && [a][..0] == [];
    assert Run(w, [a, b, c]) == Apply(w, Run(w, [a, b]), c);
    assert Run(w, [a, b]) == Apply(w, Run(w, [a]), b);
  }

  function StaleDemotion(): seq<Op> {
    [ Create("1", "a", Group, ["b"]),
      SetRole("1", "a", "b", Some(Owner)),
      SetRole("1", "a", "a", Some(Member)),
      SetRole("1", "a", "b", Some(Member)) ]
  }
}
