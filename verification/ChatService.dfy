/**
 The chat service's authorization cache when calls on a node do not overlap and
 every membership change goes through the service: whole-map views for ordinary
 chats, a per-user memo for large ones, prefix invalidation, expiry and eviction.
 */
module ChatService {
  import opened Wrappers

  datatype ChatType = Direct | Group | Channel | Secret
  datatype Role = Member | Admin | Owner

  const AUTH_CACHE_TTL: int := 5_000
  const AUTH_CACHE_MAX: nat := 50_000
  const AUTH_SWEEP_EVERY: int := 30_000
  const MAX_CACHED_MEMBERS: nat := 2_000

  type Roles = map<string, Role>

  datatype Chat = Chat(typ: ChatType, members: Roles)

  /** `roles` is None when the chat is too large to hold whole. */
  datatype AuthEntry = AuthEntry(typ: ChatType, roles: Option<Roles>, expires: int)

  datatype MemberRole = MemberRole(role: Option<Role>, expires: int)

  function RoleIn(roles: Roles, userID: string): Option<Role> {
    if userID in roles then Some(roles[userID]) else None
  }

  /** What a view of these members holds. */
  function View(members: Roles): Option<Roles> {
    if |members| > MAX_CACHED_MEMBERS then None else Some(members)
  }

  // --- memo keys ---

  function Key(chatID: string, userID: string): string { chatID + "|" + userID }

  function ChatOf(key: string): string {
    if key == [] || key[0] == '|' then [] else [key[0]] + ChatOf(key[1..])
  }

  function UserOf(key: string): string {
    if key == [] then [] else if key[0] == '|' then key[1..] else UserOf(key[1..])
  }

  /** A key splits back into the chat and the user it was made from. */
  lemma {:induction false} KeySplits(chatID: string, userID: string)
    requires '|' !in chatID
    ensures '|' in Key(chatID, userID)
    ensures ChatOf(Key(chatID, userID)) == chatID && UserOf(Key(chatID, userID)) == userID
  {
    var key := Key(chatID, userID);
    assert key[|chatID|] == '|';
    if chatID != [] {
      KeySplits(chatID[1..], userID);
      assert key[1..] == Key(chatID[1..], userID);
    }
  }

  lemma {:induction false} KeyJoins(key: string)
    requires '|' in key
    ensures '|' !in ChatOf(key) && Key(ChatOf(key), UserOf(key)) == key
  {
    if key[0] == '|' {
      assert key == [key[0]] + key[1..];
    } else {
      KeyJoins(key[1..]);
      assert key == [key[0]] + key[1..];
    }
  }

  lemma PrefixMeansChat(key: string, chatID: string)
    requires '|' !in chatID && Key(chatID, "") <= key
    ensures ChatOf(key) == chatID
  {
    var userID := key[|chatID| + 1..];
    assert key == Key(chatID, userID);
    KeySplits(chatID, userID);
  }

  /** Matching the prefix selects exactly the chat's own keys. */
  lemma PrefixIsChat(key: string, chatID: string)
    requires '|' in key && '|' !in chatID
    ensures Key(chatID, "") <= key <==> ChatOf(key) == chatID
  {
    if Key(chatID, "") <= key {
      PrefixMeansChat(key, chatID);
    } else {
      KeyJoins(key);
      assert Key(ChatOf(key), "") <= Key(ChatOf(key), UserOf(key));
    }
  }

  /** With a separator inside chat ids the prefix would reach another chat's keys. */
  lemma SeparatorInChatIdCollides(a: string, b: string, userID: string)
    ensures Key(a + "|" + b, "") <= Key(a, b + "|" + userID)
  {
    assert Key(a, b + "|" + userID) == Key(a + "|" + b, "") + userID;
  }

  // --- eviction ---

  function Live<V>(m: map<string, V>, expires: V -> int, now: int): map<string, V> {
    map k | k in m && !(now > expires(m[k])) :: m[k]
  }

  ghost predicate Within<V>(m': map<string, V>, m: map<string, V>) {
    forall k :: k in m' ==> k in m && m'[k] == m[k]
  }

  /** Nothing expired is left, and something live is gone only from a map left one below the ceiling. */
  ghost predicate Trims<V>(m': map<string, V>, m: map<string, V>, expires: V -> int, now: int) {
    && (forall k :: k in m' ==> k in m && m'[k] == m[k] && now <= expires(m[k]))
    && (forall k :: k in m && k !in m' && now <= expires(m[k]) ==> |m'| == AUTH_CACHE_MAX - 1)
  }

  /** Drops expired entries, then arbitrary ones while the ceiling is reached. */
  method Trim<V>(m: map<string, V>, expires: V -> int, now: int) returns (m': map<string, V>)
    ensures Kept(m', m, expires, true, now)
    ensures Trims(m', m, expires, now)
  {
    m' := m;
    var keys := m.Keys;
    while keys != {}
      invariant Within(m', m) && keys <= m'.Keys
      invariant forall k :: k in m && k !in m' ==> now > expires(m[k])
      invariant forall k :: k in m' && now > expires(m[k]) ==> k in keys
      decreases keys
    {
      var k :| k in keys;
      keys := keys - {k};
      if now > expires(m'[k]) {
        m' := m' - {k};
      }
    }
    assert m' == Live(m, expires, now);
    while |m'| >= AUTH_CACHE_MAX
      invariant Within(m', Live(m, expires, now))
      invariant |Live(m, expires, now)| < AUTH_CACHE_MAX ==> m' == Live(m, expires, now)
      invariant |Live(m, expires, now)| >= AUTH_CACHE_MAX ==> |m'| >= AUTH_CACHE_MAX - 1
      decreases |m'|
    {
      assert |m'.Keys| > 0;
      var k :| k in m';
      assert (m' - {k}).Keys == m'.Keys - {k};
      m' := m' - {k};
    }
  }

  // --- the service ---

  ghost predicate ViewsAgree(chats: map<string, Chat>, cache: map<string, AuthEntry>) {
    forall c :: c in cache ==>
      c in chats && cache[c].typ == chats[c].typ && cache[c].roles == View(chats[c].members)
  }

  lemma ViewOf(chats: map<string, Chat>, cache: map<string, AuthEntry>, chatID: string)
    requires ViewsAgree(chats, cache) && chatID in cache
    ensures chatID in chats && cache[chatID].typ == chats[chatID].typ
    ensures cache[chatID].roles == View(chats[chatID].members)
  {
  }

  lemma ViewPut(chats: map<string, Chat>, cache: map<string, AuthEntry>, chatID: string, e: AuthEntry)
    requires ViewsAgree(chats, cache) && chatID in chats
    requires e.typ == chats[chatID].typ && e.roles == View(chats[chatID].members)
    ensures ViewsAgree(chats, cache[chatID := e]) && |cache[chatID := e]| <= |cache| + 1
  {
  }

  ghost predicate MemosAgree(chats: map<string, Chat>, roleCache: map<string, MemberRole>) {
    forall k :: k in roleCache ==>
      && '|' in k && ChatOf(k) in chats
      && roleCache[k].role == RoleIn(chats[ChatOf(k)].members, UserOf(k))
  }

  /** A memo for a live chat says what the store says. */
  lemma MemoAnswers(chats: map<string, Chat>, roleCache: map<string, MemberRole>, chatID: string, userID: string)
    requires MemosAgree(chats, roleCache) && chatID in chats && '|' !in chatID
    ensures Key(chatID, userID) in roleCache ==>
      roleCache[Key(chatID, userID)].role == RoleIn(chats[chatID].members, userID)
    ensures forall expires ::
      MemosAgree(chats, roleCache[Key(chatID, userID) := MemberRole(RoleIn(chats[chatID].members, userID), expires)])
  {
    KeySplits(chatID, userID);
  }

  /** After one chat changes, what is left once it is invalidated still agrees. */
  lemma OthersStillAgree(chats: map<string, Chat>, chats': map<string, Chat>, cache: map<string, AuthEntry>,
                         roleCache: map<string, MemberRole>, chatID: string)
    requires ViewsAgree(chats, cache) && MemosAgree(chats, roleCache)
    requires forall c :: c in chats && c != chatID ==> c in chats' && chats'[c] == chats[c]
    ensures ViewsAgree(chats', cache - {chatID})
    ensures MemosAgree(chats', Without(roleCache, chatID))
    ensures |cache - {chatID}| <= |cache| && |Without(roleCache, chatID)| <= |roleCache|
    ensures forall k :: k in roleCache ==> '|' in k
  {
    SubsetSize((cache - {chatID}).Keys, cache.Keys);
    SubsetSize(Without(roleCache, chatID).Keys, roleCache.Keys);
  }

  function Without(roleCache: map<string, MemberRole>, chatID: string): map<string, MemberRole> {
    map k | k in roleCache && ChatOf(k) != chatID :: roleCache[k]
  }

  lemma FoundedStart(ownerID: string, members: seq<string>)
    ensures Founded(ownerID, members[..0]) == map[ownerID := Owner]
  {
  }

  lemma FoundedNext(ownerID: string, members: seq<string>, i: nat)
    requires i < |members|
    ensures Founded(ownerID, members[..i + 1]) ==
      if members[i] in Founded(ownerID, members[..i]) then Founded(ownerID, members[..i])
      else Founded(ownerID, members[..i])[members[i] := Member]
  {
    assert members[..i + 1] == members[..i] + [members[i]];
  }

  function EntryExpiry(e: AuthEntry): int { e.expires }

  function MemoExpiry(r: MemberRole): int { r.expires }

  /** What a sweep leaves: all when none is due, else the live entries, as many as fit. */
  ghost predicate Kept<V>(m': map<string, V>, m: map<string, V>, expires: V -> int, due: bool, now: int) {
    if !due then m' == m
    else if |Live(m, expires, now)| < AUTH_CACHE_MAX then m' == Live(m, expires, now)
    else Within(m', Live(m, expires, now)) && |m'| == AUTH_CACHE_MAX - 1
  }

  lemma AllKept<V>(m: map<string, V>, expires: V -> int, now: int)
    ensures Kept(m, m, expires, false, now) && Within(m, m)
  {
  }

  lemma KeptIsPart<V>(m': map<string, V>, m: map<string, V>, expires: V -> int, due: bool, now: int)
    requires Kept(m', m, expires, due, now) && (!due ==> |m| < AUTH_CACHE_MAX)
    ensures Within(m', m) && |m'| < AUTH_CACHE_MAX
  {
  }

  /** Whatever part of the caches is kept still agrees with the store. */
  lemma PartAgrees(chats: map<string, Chat>, cache: map<string, AuthEntry>, memos: map<string, MemberRole>,
                   cache': map<string, AuthEntry>, memos': map<string, MemberRole>)
    requires ViewsAgree(chats, cache) && MemosAgree(chats, memos) && Within(cache', cache) && Within(memos', memos)
    ensures ViewsAgree(chats, cache') && MemosAgree(chats, memos')
  {
  }

  class Service {
    const sql: bool                             // which store: SQL, or in memory
    var chats: map<string, Chat>                // its content
    var cache: map<string, AuthEntry>
    var roleCache: map<string, MemberRole>
    var lastSweep: int

    /** Everything cached is what the store holds now, within the ceilings. */
    ghost predicate Valid()
      reads this
    {
      && (forall c :: c in chats ==> '|' !in c)
      && ViewsAgree(chats, cache)
      && MemosAgree(chats, roleCache)
      && |cache| <= AUTH_CACHE_MAX && |roleCache| <= AUTH_CACHE_MAX
    }

    constructor (now: int, sql: bool)
      ensures Valid() && chats == map[] && cache == map[] && roleCache == map[] && this.sql == sql
    {
      this.sql := sql;
      chats, cache, roleCache, lastSweep := map[], map[], map[], now;
    }

    /** sweepLocked: leaves room for one more entry in either map. */
    method Sweep(now: int)
      requires Valid()
      modifies this`cache, this`roleCache, this`lastSweep
      ensures Valid() && |cache| < AUTH_CACHE_MAX && |roleCache| < AUTH_CACHE_MAX
      ensures Within(cache, old(cache)) && Within(roleCache, old(roleCache))
      ensures
        var full := |old(cache)| >= AUTH_CACHE_MAX || |old(roleCache)| >= AUTH_CACHE_MAX;
        var due := full || now - old(lastSweep) >= AUTH_SWEEP_EVERY;
        && lastSweep == (if due then now else old(lastSweep))
        && Kept(cache, old(cache), EntryExpiry, due, now)
        && Kept(roleCache, old(roleCache), MemoExpiry, due, now)
    {
      hide *;
      if now - lastSweep < AUTH_SWEEP_EVERY && |cache| < AUTH_CACHE_MAX && |roleCache| < AUTH_CACHE_MAX {
        AllKept(cache, EntryExpiry, now);
        AllKept(roleCache, MemoExpiry, now);
        return;
      }
      lastSweep := now;
      cache := Trim(cache, EntryExpiry, now);
      roleCache := Trim(roleCache, MemoExpiry, now);
      KeptIsPart(cache, old(cache), EntryExpiry, true, now);
      KeptIsPart(roleCache, old(roleCache), MemoExpiry, true, now);
      StaysValid();
    }

    twostate lemma StaysValid()
      requires old(Valid()) && chats == old(chats)
      requires Within(cache, old(cache)) && Within(roleCache, old(roleCache))
      requires |cache| <= AUTH_CACHE_MAX && |roleCache| <= AUTH_CACHE_MAX
      ensures Valid()
    {
      hide ViewsAgree, MemosAgree, Within;
      PartAgrees(chats, old(cache), old(roleCache), cache, roleCache);
    }

    /** authView: None when the chat does not exist. */
    method AuthView(chatID: string, now: int) returns (e: Option<AuthEntry>)
      requires Valid()
      modifies this`cache, this`roleCache, this`lastSweep
      ensures Valid()
      ensures e.Some? <==> chatID in chats
      ensures e.Some? ==>
        var members := chats[chatID].members;
        && e.value.typ == chats[chatID].typ
        && e.value.roles == if |members| > MAX_CACHED_MEMBERS then None else Some(members)
      ensures e.Some? ==> chatID in cache && cache[chatID] == e.value && now < e.value.expires
      ensures e.Some? && !(chatID in old(cache) && now < old(cache)[chatID].expires) ==>
        e.value.expires == now + AUTH_CACHE_TTL
    {
      hide ViewsAgree, MemosAgree, Kept, Within;
      if chatID in cache && now < cache[chatID].expires {
        ViewOf(chats, cache, chatID);
        return Some(cache[chatID]);
      }
      if chatID !in chats {
        return None;
      }
      var entry := AuthEntry(chats[chatID].typ, View(chats[chatID].members), now + AUTH_CACHE_TTL);
      Sweep(now);
      ViewPut(chats, cache, chatID, entry);
      cache := cache[chatID := entry];
      e := Some(entry);
    }

    /**
     roleOf: whichever path answers, cached view, memo or probe, the answer is the
     store's.
     */
    method RoleOf(chatID: string, userID: string, now: int) returns (typ: Option<ChatType>, role: Option<Role>)
      requires Valid()
      modifies this`cache, this`roleCache, this`lastSweep
      ensures Valid()
      ensures typ == if chatID in chats then Some(chats[chatID].typ) else None
      ensures role == if chatID in chats then RoleIn(chats[chatID].members, userID) else None
    {
      hide ViewsAgree, MemosAgree;
      var e := AuthView(chatID, now);
      if e.None? {
        return None, None;
      }
      if e.value.roles.Some? {
        return Some(e.value.typ), RoleIn(e.value.roles.value, userID);
      }
      var key := Key(chatID, userID);
      MemoAnswers(chats, roleCache, chatID, userID);
      if key in roleCache && now < roleCache[key].expires {
        return Some(e.value.typ), roleCache[key].role;
      }
      role := RoleIn(chats[chatID].members, userID);
      typ := Some(e.value.typ);
      Sweep(now);
      MemoAnswers(chats, roleCache, chatID, userID);
      roleCache := roleCache[key := MemberRole(role, now + AUTH_CACHE_TTL)];
    }

    /** invalidate: drops the chat's view and exactly its own memo entries. */
    method Invalidate(chatID: string)
      requires '|' !in chatID
      requires forall k :: k in roleCache ==> '|' in k
      modifies this`cache, this`roleCache
      ensures cache == old(cache) - {chatID}
      ensures roleCache == Without(old(roleCache), chatID)
    {
      cache := cache - {chatID};
      ghost var before := roleCache;
      var keys := roleCache.Keys;
      var prefix := chatID + "|";
      assert prefix == Key(chatID, "");
      while keys != {}
        invariant cache == old(cache) - {chatID}
        invariant Within(roleCache, before) && keys <= roleCache.Keys
        invariant forall k :: k in before && k !in roleCache ==> ChatOf(k) == chatID
        invariant forall k :: k in roleCache && ChatOf(k) == chatID ==> k in keys
        decreases keys
      {
        var k :| k in keys;
        keys := keys - {k};
        PrefixIsChat(k, chatID);
        if prefix <= k {
          roleCache := roleCache - {k};
        }
      }
    }

    /** One row written, then the chat invalidated. */
    method WriteMember(chatID: string, userID: string, role: Role)
      requires Valid() && chatID in chats
      modifies this`chats, this`cache, this`roleCache
      ensures Valid()
      ensures chats == WithMember(old(chats), chatID, userID, role)
    {
      hide ViewsAgree, MemosAgree, Without;
      OthersStillAgree(chats, WithMember(chats, chatID, userID, role), cache, roleCache, chatID);
      chats := WithMember(chats, chatID, userID, role);
      Invalidate(chatID);
    }

    /**
     AddMember: the SQL store refuses an unknown chat and keeps the row of somebody who is
     already in; the in-memory store replaces that row, and files a row of an unknown
     chat where no question finds it.
     */
    method AddMember(chatID: string, userID: string, role: Role) returns (ok: bool)
      requires Valid()
      modifies this`chats, this`cache, this`roleCache
      ensures Valid()
      ensures ok <==> chatID in old(chats) || !sql
      ensures chats ==
        if chatID !in old(chats) || (sql && userID in old(chats)[chatID].members) then old(chats)
        else WithMember(old(chats), chatID, userID, role)
    {
      if chatID !in chats {
        return !sql;
      }
      var members := chats[chatID].members;
      var kept := if sql && userID in members then members[userID] else role;
      assert userID in members && kept == members[userID] ==>
        members[userID := kept] == members && chats[chatID := chats[chatID].(members := members)] == chats;
      WriteMember(chatID, userID, kept);
      ok := true;
    }

    /** SetMemberRole: false when there is no such member. */
    method SetMemberRole(chatID: string, userID: string, role: Role) returns (ok: bool)
      requires Valid()
      modifies this`chats, this`cache, this`roleCache
      ensures Valid()
      ensures ok <==> chatID in old(chats) && userID in old(chats)[chatID].members
      ensures chats == if ok then WithMember(old(chats), chatID, userID, role) else old(chats)
    {
      ok := chatID in chats && userID in chats[chatID].members;
      if ok {
        WriteMember(chatID, userID, role);
      }
    }

    /** CreateGroup under a new id: the owner first, everyone else once as a member. */
    method CreateGroup(chatID: string, ownerID: string, typ: ChatType, members: seq<string>)
      requires Valid() && chatID !in chats && '|' !in chatID
      modifies this`chats, this`cache, this`roleCache
      ensures Valid()
      ensures chats == old(chats)[chatID := Chat(typ, Founded(ownerID, members))]
    {
      hide ViewsAgree, MemosAgree, Without, Founded;
      var rows := Roster(ownerID, members);
      OthersStillAgree(chats, chats[chatID := Chat(typ, rows)], cache, roleCache, chatID);
      chats := chats[chatID := Chat(typ, rows)];
      Invalidate(chatID);
    }
  }

  /** CreateGroup's seeding: the first mention of a user decides their role. */
  method Roster(ownerID: string, members: seq<string>) returns (rows: Roles)
    ensures rows == Founded(ownerID, members)
  {
    rows := map[ownerID := Owner];
    var seen := {ownerID};
    FoundedStart(ownerID, members);
    hide Founded;
    for i := 0 to |members|
      invariant seen == rows.Keys
      invariant rows == Founded(ownerID, members[..i])
    {
      FoundedNext(ownerID, members, i);
      if members[i] !in seen {
        seen := seen + {members[i]};
        rows := rows[members[i] := Member];
      }
    }
    assert members[..|members|] == members;
  }

  function WithMember(chats: map<string, Chat>, chatID: string, userID: string, role: Role): map<string, Chat>
    requires chatID in chats
  {
    chats[chatID := chats[chatID].(members := chats[chatID].members[userID := role])]
  }

  /** The founder owns the chat, even when named again among the members. */
  function Founded(ownerID: string, members: seq<string>): Roles {
    (map u | u in members :: Member)[ownerID := Owner]
  }

  lemma SubsetSize<T>(a: set<T>, b: set<T>)
    requires a <= b
    ensures |a| <= |b|
  {
    if a != b {
      assert b == a + (b - a);
    }
  }
}
