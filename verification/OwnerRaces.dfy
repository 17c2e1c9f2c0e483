/**
 The last-owner rule when role changes and joins overlap. Each call is cut at its reads
 and its write. A chat is the sequence of memberships it has had; what is cached is one of
 them, and may be replaced by any other, older or newer, or dropped at any moment.
 */
module OwnerRaces {
  import opened Wrappers
  import opened ChatService
  import opened Invites
  import OwnerRuns

  type ChatId = nat
  type User = string
  type History = seq<Roles>

  datatype Call =
    | Asking(c: ChatId, actor: User, target: User, role: Role)   // SetRole, the actor's role not read
    | Ranked(c: ChatId, target: User, role: Role)                // the actor was seen as an owner
    | Counting(c: ChatId, target: User, role: Role)              // the target was seen as an owner
    | Joining(c: ChatId, target: User)                           // Join, membership not read
    | Cleared(c: ChatId, target: User, role: Role, seen: nat, join: bool) // checked against version `seen`
    | Over                                                       // refused, or written

  datatype State = State(chats: map<ChatId, History>, views: map<ChatId, nat>, calls: map<nat, Call>)

  datatype Step =
    | Found(c: ChatId, owner: User, members: seq<User>)
    | Look(c: ChatId, version: nat)                              // a load, however slow, is stored
    | Forget(c: ChatId)
    | Begin(id: nat, call: Call)
    | Next(id: nat)

  ghost predicate Good(s: State) {
    && ViewsOk(s.chats, s.views)
    && CallsOk(s.chats, s.calls)
  }

  ghost predicate ViewsOk(chats: map<ChatId, History>, views: map<ChatId, nat>) {
    && (forall c :: c in chats ==> chats[c] != [])
    && (forall c :: c in views ==> c in chats && views[c] < |chats[c]|)
  }

  ghost predicate CallsOk(chats: map<ChatId, History>, calls: map<nat, Call>) {
    forall id :: id in calls ==> CallOk(chats, calls[id])
  }

  ghost predicate Grow(chats: map<ChatId, History>, chats': map<ChatId, History>) {
    forall c :: c in chats ==> c in chats' && chats[c] <= chats'[c]
  }

  /** A cleared call was right about the version it checked. */
  predicate Safe(members: Roles, target: User, role: Role) {
    role == Owner || RoleIn(members, target) != Some(Owner) || |Owners(members)| > 1
  }

  predicate CallOk(chats: map<ChatId, History>, c: Call) {
    c.Over? ||
    (c.c in chats && (c.Cleared? ==> c.seen < |chats[c.c]| && Safe(Version(chats, c.c, c.seen), c.target, c.role)))
  }

  function Latest(chats: map<ChatId, History>, c: ChatId): nat {
    if c in chats && chats[c] != [] then |chats[c]| - 1 else 0
  }

  function Version(chats: map<ChatId, History>, c: ChatId, v: nat): Roles {
    if c in chats && v < |chats[c]| then chats[c][v] else map[]
  }

  /** The version a cached question is answered from. */
  function Seen(s: State, c: ChatId): nat { if c in s.views then s.views[c] else Latest(s.chats, c) }

  function RoleSeen(s: State, c: ChatId, u: User): Option<Role> { RoleIn(Version(s.chats, c, Seen(s, c)), u) }

  function Now(s: State, c: ChatId): Roles { Version(s.chats, c, Latest(s.chats, c)) }

  /** The stage a call reaches by its next read. */
  function Read(s: State, call: Call): Call {
    match call
    case Asking(c, actor, target, role) =>
      if RoleSeen(s, c, actor) == Some(Owner) then Ranked(c, target, role) else Over
    case Ranked(c, target, role) =>
      var had := RoleSeen(s, c, target);
      if role == Owner then Cleared(c, target, role, Latest(s.chats, c), false)
      else if had.None? then Over
      else if had.value == Owner then Counting(c, target, role)
      else Cleared(c, target, role, Seen(s, c), false)
    case Counting(c, target, role) =>
      if |Owners(Now(s, c))| <= 1 then Over else Cleared(c, target, role, Latest(s.chats, c), false)
    case Joining(c, target) =>
      if RoleSeen(s, c, target).Some? then Over else Cleared(c, target, Member, Seen(s, c), true)
    case _ => Over
  }

  /** The SQL store keeps the row of a member who joins again; the in-memory one replaces it. */
  datatype Store = Memory | Sql

  /** Whether the store writes at all: a role change needs a row to change. */
  predicate Takes(store: Store, members: Roles, call: Call)
    requires call.Cleared?
  {
    if call.join then call.target !in members || store.Memory? else call.target in members
  }

  function After(store: Store, members: Roles, call: Call): Roles
    requires call.Cleared?
  {
    if Takes(store, members, call) then members[call.target := call.role] else members
  }

  function Written(store: Store, s: State, call: Call): map<ChatId, History>
    requires call.Cleared?
  {
    if call.c in s.chats && Takes(store, Now(s, call.c), call) then
      s.chats[call.c := s.chats[call.c] + [After(store, Now(s, call.c), call)]]
    else s.chats
  }

  predicate MayBegin(s: State, id: nat, call: Call) {
    id !in s.calls && (call.Asking? || call.Joining?) && call.c in s.chats
  }

  function Apply(store: Store, s: State, step: Step): State {
    match step
    case Found(c, owner, members) =>
      if c in s.chats then s else s.(chats := s.chats[c := [Founded(owner, members)]])
    case Look(c, v) => if c !in s.chats || v >= |s.chats[c]| then s else s.(views := s.views[c := v])
    case Forget(c) => s.(views := s.views - {c})
    case Begin(id, call) => if MayBegin(s, id, call) then s.(calls := s.calls[id := call]) else s
    case Next(id) =>
      if id !in s.calls then s
      else if s.calls[id].Cleared? then s.(chats := Written(store, s, s.calls[id]), calls := s.calls[id := Over])
      else s.(calls := s.calls[id := Read(s, s.calls[id])])
  }

  lemma CallsStay(chats: map<ChatId, History>, chats': map<ChatId, History>, calls: map<nat, Call>)
    requires CallsOk(chats, calls) && Grow(chats, chats')
    ensures CallsOk(chats', calls)
  {
    hide Safe;
  }

  lemma WriteGrows(store: Store, s: State, call: Call)
    requires call.Cleared? && ViewsOk(s.chats, s.views)
    ensures Grow(s.chats, Written(store, s, call)) && ViewsOk(Written(store, s, call), s.views)
  {
    hide Takes, After, Now;
  }

  lemma FoundGrows(s: State, c: ChatId, h: History)
    requires ViewsOk(s.chats, s.views) && c !in s.chats && h != []
    ensures Grow(s.chats, s.chats[c := h]) && ViewsOk(s.chats[c := h], s.views)
  {
  }

  lemma SameGrows(chats: map<ChatId, History>)
    ensures Grow(chats, chats)
  {
  }

  lemma StepGrows(store: Store, s: State, step: Step)
    requires ViewsOk(s.chats, s.views)
    ensures Grow(s.chats, Apply(store, s, step).chats)
    ensures ViewsOk(Apply(store, s, step).chats, Apply(store, s, step).views)
  {
    SameGrows(s.chats);
    match step
    case Found(c, owner, members) =>
      if c !in s.chats { FoundGrows(s, c, [Founded(owner, members)]); }
      hide ViewsOk, Grow;
    case Next(id) =>
      if id in s.calls && s.calls[id].Cleared? { WriteGrows(store, s, s.calls[id]); }
      hide ViewsOk, Grow, Written, Read;
    case Look(c, v) => hide Grow;
    case Forget(c) => hide Grow;
    case Begin(_, _) => hide ViewsOk, Grow;
  }

  lemma StepKeepsGood(store: Store, s: State, step: Step)
    requires Good(s)
    ensures Good(Apply(store, s, step))
  {
    var s' := Apply(store, s, step);
    StepGrows(store, s, step);
    CallsStay(s.chats, s'.chats, s.calls);
    if step.Next? && step.id in s.calls && !s.calls[step.id].Cleared? {
      ReadIsOk(s, s.calls[step.id]);
    }
    hide Founded, Safe, Read, Written, Grow, ViewsOk;
  }

  lemma ReadIsOk(s: State, call: Call)
    requires Good(s) && CallOk(s.chats, call) && !call.Cleared?
    ensures CallOk(s.chats, Read(s, call))
  {
    hide Owners, Founded;
  }

  function Run(store: Store, steps: seq<Step>): State {
    if steps == [] then State(map[], map[], map[])
    else Apply(store, Run(store, steps[..|steps| - 1]), steps[|steps| - 1])
  }

  lemma {:induction false} RunIsGood(store: Store, steps: seq<Step>)
    ensures Good(Run(store, steps))
  {
    if steps != [] {
      RunIsGood(store, steps[..|steps| - 1]);
      StepKeepsGood(store, Run(store, steps[..|steps| - 1]), steps[|steps| - 1]);
    }
  }

  /** The call `id` is about to write. */
  predicate Writes(s: State, id: nat) { id in s.calls && s.calls[id].Cleared? }

  /** Something was written to the chat after the version the call had checked. */
  predicate Overtaken(s: State, id: nat)
    requires Writes(s, id)
  {
    s.calls[id].seen < Latest(s.chats, s.calls[id].c)
  }

  /**
   Over every interleaving, whatever the views hold: a write takes a chat's last owner if
   and only if its target is the only owner at that moment and the new role is another,
   unless it is a join whose row the SQL store keeps; and then something had been written
   to the chat since the version it checked.
   */
  lemma LastOwnerLostOnlyWhenOvertaken(store: Store, steps: seq<Step>, id: nat)
    requires Writes(Run(store, steps), id)
    ensures
      var s := Run(store, steps);
      var call := s.calls[id];
      var before, after := Now(s, call.c), Now(Apply(store, s, Next(id)), call.c);
      Owners(before) != {} ==>
        && (Owners(after) == {} <==>
              Owners(before) == {call.target} && call.role != Owner && !(call.join && store.Sql?))
        && (Owners(after) == {} ==> Overtaken(s, id))
  {
    RunIsGood(store, steps);
    hide Run, Owners;
    var s := Run(store, steps);
    var call := s.calls[id];
    assert CallOk(s.chats, call);
    assert Now(Apply(store, s, Next(id)), call.c) == After(store, Now(s, call.c), call);
    if Owners(Now(s, call.c)) != {} {
      WriteLosesExactlyWhen(store, Now(s, call.c), call);
    }
  }

  lemma WriteLosesExactlyWhen(store: Store, members: Roles, call: Call)
    requires call.Cleared? && Owners(members) != {}
    ensures Owners(After(store, members, call)) == {} <==>
      Owners(members) == {call.target} && call.role != Owner && !(call.join && store.Sql?)
    ensures Owners(After(store, members, call)) == {} ==> !Safe(members, call.target, call.role)
  {
    OwnerRuns.OwnersAfter(members, call.target, call.role);
    if Safe(members, call.target, call.role) {
      OwnerRuns.WriteKeepsOwner(members, call.target, call.role);
      NotTheOnlyOwner(members, call.target, call.role);
    } else {
      OnlyOwner(members, call.target);
    }
  }

  lemma OnlyOwner(members: Roles, u: User)
    requires RoleIn(members, u) == Some(Owner) && |Owners(members)| <= 1
    ensures Owners(members) == {u} && Owners(members) - {u} == {}
  {
    assert u in Owners(members);
    forall x | x in Owners(members) ensures x == u {
      if x != u {
        assert {x, u} <= Owners(members);
        SubsetSize({x, u}, Owners(members));
      }
    }
  }

  lemma NotTheOnlyOwner(members: Roles, u: User, role: Role)
    requires Safe(members, u, role)
    ensures !(Owners(members) == {u} && role != Owner)
  {
    if Owners(members) == {u} {
      assert u in Owners(members);
    }
  }

  /** No write of the run is overtaken. */
  ghost predicate NoneOvertaken(store: Store, steps: seq<Step>) {
    forall i :: 0 <= i < |steps| && steps[i].Next? && Writes(Run(store, steps[..i]), steps[i].id) ==>
      !Overtaken(Run(store, steps[..i]), steps[i].id)
  }

  ghost predicate Owned(s: State) {
    forall c :: c in s.chats ==> Owners(Now(s, c)) != {}
  }

  /** A step changes at most the chat it founds or writes. */
  lemma NowStays(store: Store, s: State, step: Step, c: ChatId)
    requires ViewsOk(s.chats, s.views) && c in s.chats
    requires !(step.Next? && Writes(s, step.id) && s.calls[step.id].c == c)
    ensures c in Apply(store, s, step).chats && Now(Apply(store, s, step), c) == Now(s, c)
  {
    hide Founded, Takes, After, Read;
  }

  lemma NewIsOwned(store: Store, s: State, step: Step, c: ChatId)
    requires c !in s.chats && c in Apply(store, s, step).chats
    ensures Owners(Now(Apply(store, s, step), c)) != {}
  {
    hide Takes, After, Read;
    assert step.owner in Owners(Founded(step.owner, step.members));
  }

  lemma StepKeepsOwned(store: Store, steps: seq<Step>, step: Step)
    requires Owned(Run(store, steps))
    requires step.Next? && Writes(Run(store, steps), step.id) ==> !Overtaken(Run(store, steps), step.id)
    ensures Owned(Apply(store, Run(store, steps), step))
  {
    var s := Run(store, steps);
    var s' := Apply(store, s, step);
    RunIsGood(store, steps);
    hide Owners, Run, Apply, Now, Overtaken, CallsOk, ViewsOk;
    forall c | c in s'.chats ensures Owners(Now(s', c)) != {} {
      if c !in s.chats {
        NewIsOwned(store, s, step, c);
      } else if step.Next? && Writes(s, step.id) && s.calls[step.id].c == c {
        LastOwnerLostOnlyWhenOvertaken(store, steps, step.id);
      } else {
        NowStays(store, s, step, c);
      }
    }
  }

  /**
   Over every interleaving in which no write is overtaken, every chat keeps an owner. Runs
   whose calls do not overlap and read current views are among these.
   */
  lemma {:induction false} OwnersSurviveUnlessOvertaken(store: Store, steps: seq<Step>)
    requires NoneOvertaken(store, steps)
    ensures Owned(Run(store, steps))
  {
    if steps != [] {
      var n := |steps| - 1;
      forall i | 0 <= i < n ensures steps[..n][..i] == steps[..i] {}
      OwnersSurviveUnlessOvertaken(store, steps[..n]);
      StepKeepsOwned(store, steps[..n], steps[n]);
    }
  }

  // --- whose call a write belongs to ---

  /** The call with which `id` began. */
  function BegunAs(store: Store, steps: seq<Step>, id: nat): Call {
    if steps == [] then Over
    else
      var before, step := steps[..|steps| - 1], steps[|steps| - 1];
      if step.Begin? && step.id == id && MayBegin(Run(store, before), id, step.call) then step.call
      else BegunAs(store, before, id)
  }

  /** Some version of the chat has the user as an owner. */
  ghost predicate WasOwner(chats: map<ChatId, History>, c: ChatId, u: User) {
    c in chats && exists v :: 0 <= v < |chats[c]| && RoleIn(chats[c][v], u) == Some(Owner)
  }

  /** What a call may have become, given what it began as. */
  ghost predicate GrewFrom(chats: map<ChatId, History>, was: Call, now: Call) {
    match was
    case Asking(c, actor, target, role) =>
      || now == was || now.Over?
      || (&& (now.Ranked? || now.Counting? || (now.Cleared? && !now.join))
          && now.c == c && now.target == target && now.role == role && WasOwner(chats, c, actor))
    case Joining(c, target) =>
      || now == was || now.Over?
      || (now.Cleared? && now.join && now.c == c && now.target == target && now.role == Member)
    case _ => false
  }

  lemma WasOwnerStays(chats: map<ChatId, History>, chats': map<ChatId, History>, c: ChatId, u: User)
    requires WasOwner(chats, c, u) && Grow(chats, chats')
    ensures WasOwner(chats', c, u)
  {
    var v :| 0 <= v < |chats[c]| && RoleIn(chats[c][v], u) == Some(Owner);
    assert chats'[c][v] == chats[c][v];
  }

  lemma GrewFromStays(chats: map<ChatId, History>, chats': map<ChatId, History>, was: Call, now: Call)
    requires GrewFrom(chats, was, now) && Grow(chats, chats')
    ensures GrewFrom(chats', was, now)
  {
    if was.Asking? && WasOwner(chats, was.c, was.actor) {
      WasOwnerStays(chats, chats', was.c, was.actor);
    }
    hide WasOwner;
  }

  lemma ReadGrows(s: State, was: Call, call: Call)
    requires ViewsOk(s.chats, s.views) && GrewFrom(s.chats, was, call) && !call.Cleared? && CallOk(s.chats, call)
    ensures GrewFrom(s.chats, was, Read(s, call))
  {
    hide Owners;
    if call.Asking? && RoleSeen(s, call.c, call.actor) == Some(Owner) {
      assert RoleIn(s.chats[call.c][Seen(s, call.c)], call.actor) == Some(Owner);
      assert WasOwner(s.chats, call.c, call.actor);
    }
  }

  lemma {:induction false} CallsGrewFrom(store: Store, steps: seq<Step>, id: nat)
    requires id in Run(store, steps).calls
    ensures GrewFrom(Run(store, steps).chats, BegunAs(store, steps, id), Run(store, steps).calls[id])
  {
    assert steps != [];
    var before, step := steps[..|steps| - 1], steps[|steps| - 1];
    var s := Run(store, before);
    RunIsGood(store, before);
    hide Apply, Good;
    if id in s.calls {
      CallsGrewFrom(store, before, id);
      StepGrewFrom(store, s, step, BegunAs(store, before, id), id);
    } else {
      BeginIs(store, s, step, id);
    }
    hide GrewFrom;
  }

  lemma BeginIs(store: Store, s: State, step: Step, id: nat)
    requires id !in s.calls && id in Apply(store, s, step).calls
    ensures
      var s' := Apply(store, s, step);
      step.Begin? && step.id == id && MayBegin(s, id, step.call) && GrewFrom(s'.chats, step.call, s'.calls[id])
  {
    hide Read, Written, Founded;
  }

  lemma StepGrewFrom(store: Store, s: State, step: Step, was: Call, id: nat)
    requires Good(s) && id in s.calls && GrewFrom(s.chats, was, s.calls[id])
    ensures
      var s' := Apply(store, s, step);
      && id in s'.calls && GrewFrom(s'.chats, was, s'.calls[id])
      && !(step.Begin? && step.id == id && MayBegin(s, id, step.call))
  {
    StepGrows(store, s, step);
    hide Grow, ViewsOk, Read, Written, RoleSeen, WasOwner, Founded;
    assert CallOk(s.chats, s.calls[id]);
    GrewFromStays(s.chats, Apply(store, s, step).chats, was, s.calls[id]);
    if step == Next(id) && !s.calls[id].Cleared? {
      ReadGrows(s, was, s.calls[id]);
    }
  }

  /**
   Over every interleaving, a step changes the role of a member only as the write of a call
   that began as a role change for that member, by somebody who has been an owner of the
   chat and to exactly the role asked for, or as a join, which makes a plain member.
   */
  lemma RolesChangeOnlyByOwners(store: Store, steps: seq<Step>, step: Step, c: ChatId, u: User)
    requires c in Run(store, steps).chats
    requires RoleIn(Now(Apply(store, Run(store, steps), step), c), u) != RoleIn(Now(Run(store, steps), c), u)
    ensures
      var s, after := Run(store, steps), RoleIn(Now(Apply(store, Run(store, steps), step), c), u);
      && step.Next?
      && var was := BegunAs(store, steps, step.id);
         || (was.Asking? && was.c == c && was.target == u && after == Some(was.role) && WasOwner(s.chats, c, was.actor))
         || (was == Joining(c, u) && after == Some(Member))
  {
    var s := Run(store, steps);
    RunIsGood(store, steps);
    hide Run, BegunAs;
    if !(step.Next? && Writes(s, step.id) && s.calls[step.id].c == c) {
      NowStays(store, s, step, c);
      assert false;
    }
    CallsGrewFrom(store, steps, step.id);
    var call := s.calls[step.id];
    assert Now(Apply(store, s, step), c) == After(store, Now(s, c), call);
    hide WasOwner, Grow, ViewsOk;
  }

  // --- two owners demote each other ---

  /** The run: "a" makes "b" an owner; then each demotes the other, check by check. */
  const MUTUAL: seq<Step> :=
    [Found(1, "a", ["b"]),
     Begin(0, Asking(1, "a", "b", Owner)), Next(0), Next(0), Next(0),
     Begin(1, Asking(1, "a", "b", Member)), Begin(2, Asking(1, "b", "a", Member)),
     Next(1), Next(2), Next(1), Next(2), Next(1), Next(2), Next(1), Next(2)]

  lemma Snoc(store: Store, steps: seq<Step>, i: nat)
    requires i < |steps|
    ensures Run(store, steps[..i + 1]) == Apply(store, Run(store, steps[..i]), steps[i])
  {
    assert steps[..i + 1][..i] == steps[..i];
  }

  const ONE: Roles := map["a" := Owner, "b" := Member]
  const TWO: Roles := map["a" := Owner, "b" := Owner]

  lemma Memberships()
    ensures Founded("a", ["b"]) == ONE && ONE["b" := Owner] == TWO
    ensures RoleIn(ONE, "a") == Some(Owner) && "b" in ONE
    ensures RoleIn(TWO, "a") == Some(Owner) && RoleIn(TWO, "b") == Some(Owner) && |Owners(TWO)| == 2
    ensures "a" in TWO["b" := Member] && Owners(TWO["b" := Member]["a" := Member]) == {}
  {
    assert Owners(TWO) == {"a", "b"};
    assert Founded("a", ["b"]).Keys == {"a", "b"};
  }

  lemma MutualAsks(store: Store)
    ensures Run(store, MUTUAL[..4]) == State(map[1 := [ONE]], map[], map[0 := Cleared(1, "b", Owner, 0, false)])
  {
    var r := MUTUAL;
    Memberships();
    RunNothing(store, r);
    hide Run, Owners, Founded, ONE, TWO;
    Snoc(store, r, 0);
    Snoc(store, r, 1);
    Snoc(store, r, 2);
    Snoc(store, r, 3);
    assert Run(store, r[..1]) == State(map[1 := [ONE]], map[], map[]);
    assert Run(store, r[..2]).calls == map[0 := Asking(1, "a", "b", Owner)];
    assert Run(store, r[..3]).calls == map[0 := Ranked(1, "b", Owner)];
  }

  lemma RunNothing(store: Store, steps: seq<Step>)
    ensures Run(store, steps[..0]) == State(map[], map[], map[])
  {
    assert steps[..0] == [];
  }

  lemma MutualPromotes(store: Store)
    ensures
      var s := Run(store, MUTUAL[..7]);
      && s.chats == map[1 := [ONE, TWO]] && s.views == map[]
      && 1 in s.calls && s.calls[1] == Asking(1, "a", "b", Member)
      && 2 in s.calls && s.calls[2] == Asking(1, "b", "a", Member)
  {
    var r := MUTUAL;
    MutualAsks(store);
    Memberships();
    hide Run, Owners, Founded, ONE, TWO;
    Snoc(store, r, 4);
    assert [ONE] + [TWO] == [ONE, TWO];
    assert map[1 := [ONE]][1 := [ONE, TWO]] == map[1 := [ONE, TWO]];
    assert map[0 := Cleared(1, "b", Owner, 0, false)][0 := Over] == map[0 := Over];
    assert Run(store, r[..5]) == State(map[1 := [ONE, TWO]], map[], map[0 := Over]);
    Snoc(store, r, 5);
    Snoc(store, r, 6);
  }

  lemma MutualChecks(store: Store)
    ensures
      var s := Run(store, MUTUAL[..13]);
      && s.chats == map[1 := [ONE, TWO]]
      && 1 in s.calls && s.calls[1] == Cleared(1, "b", Member, 1, false)
      && 2 in s.calls && s.calls[2] == Cleared(1, "a", Member, 1, false)
  {
    var r := MUTUAL;
    MutualPromotes(store);
    Memberships();
    hide Run, Owners, Founded, ONE, TWO;
    Snoc(store, r, 7);
    Snoc(store, r, 8);
    var s9 := Run(store, r[..9]);
    assert s9.calls[1] == Ranked(1, "b", Member) && s9.calls[2] == Ranked(1, "a", Member);
    Snoc(store, r, 9);
    Snoc(store, r, 10);
    var s11 := Run(store, r[..11]);
    assert s11.calls[1] == Counting(1, "b", Member) && s11.calls[2] == Counting(1, "a", Member);
    Snoc(store, r, 11);
    Snoc(store, r, 12);
  }

  /** Both counts say two, both writes go through, and no owner is left. */
  lemma MutualDemotionLeavesNoOwner(store: Store)
    ensures
      var s := Run(store, MUTUAL);
      1 in s.chats && Owners(Now(s, 1)) == {}
  {
    var r := MUTUAL;
    MutualChecks(store);
    Memberships();
    hide Run, Owners, Founded, ONE, TWO;
    Snoc(store, r, 13);
    Snoc(store, r, 14);
    assert r[..15] == r;
  }
}
