/**
 Fanout of one event to a chat. Members are read by keyset pages, delivered inline or
 as shard jobs, resolved in fixed-size batches and published once per node; together
 that has to equal routing to each member in turn.

 Users and nodes are numbers in the store's order; the router's answer is a table
 from a user to the distinct nodes holding their connections.
 */
module Fanout {
  import opened Wrappers

  type User = nat
  type Node = nat
  type Table = map<User, seq<Node>>

  const SHARD_THRESHOLD: nat := 1000
  const SHARD_SIZE: nat := 500
  const ROUTE_BATCH: nat := 200

  /** One delivery published to a node, naming its recipients there. */
  datatype Publish = Publish(node: Node, users: seq<User>)

  datatype Message = Message(sender: User, edited: bool, deleted: bool)

  function NodesOf(t: Table, u: User): seq<Node> {
    if u in t then t[u] else []
  }

  // --- what is delivered, and what should be ---

  /** How often user `u` is named in a delivery to node `n`. */
  ghost function Hits(ps: seq<Publish>, u: User, n: Node): nat {
    if ps == [] then 0
    else
      var p := ps[|ps| - 1];
      Hits(ps[..|ps| - 1], u, n) + if p.node == n then multiset(p.users)[u] else 0
  }

  /** The naive loop: for each user, once to each of their nodes. */
  ghost function Want(users: seq<User>, t: Table, u: User, n: Node): nat {
    if users == [] then 0
    else Want(users[..|users| - 1], t, u, n) + if users[|users| - 1] == u then multiset(NodesOf(t, u))[n] else 0
  }

  lemma {:induction false} HitsAppend(a: seq<Publish>, b: seq<Publish>, u: User, n: Node)
    ensures Hits(a + b, u, n) == Hits(a, u, n) + Hits(b, u, n)
  {
    if b == [] {
      assert a + b == a;
    } else {
      HitsAppend(a, b[..|b| - 1], u, n);
      assert (a + b)[..|a + b| - 1] == a + b[..|b| - 1];
    }
  }

  lemma {:induction false} WantAppend(a: seq<User>, b: seq<User>, t: Table, u: User, n: Node)
    ensures Want(a + b, t, u, n) == Want(a, t, u, n) + Want(b, t, u, n)
  {
    if b == [] {
      assert a + b == a;
    } else {
      WantAppend(a, b[..|b| - 1], t, u, n);
      assert (a + b)[..|a + b| - 1] == a + b[..|b| - 1];
    }
  }

  /** Among distinct users with distinct nodes, each binding is wanted exactly once. */
  lemma {:induction false} WantIsOnce(users: seq<User>, t: Table, u: User, n: Node)
    requires Distinct(users) && Distinct(NodesOf(t, u))
    ensures Want(users, t, u, n) == if u in users && n in NodesOf(t, u) then 1 else 0
  {
    if users != [] {
      var k := |users| - 1;
      WantIsOnce(users[..k], t, u, n);
      DistinctCount(NodesOf(t, u), n);
      assert users == users[..k] + [users[k]];
    }
  }

  lemma {:induction false} DistinctCount<T>(xs: seq<T>, x: T)
    requires Distinct(xs)
    ensures multiset(xs)[x] == if x in xs then 1 else 0
  {
    if xs != [] {
      var k := |xs| - 1;
      DistinctCount(xs[..k], x);
      assert xs == xs[..k] + [xs[k]];
    }
  }

  /** Deliveries carry out the naive loop over `users`. */
  ghost predicate Carries(ps: seq<Publish>, users: seq<User>, t: Table) {
    forall u, n :: Hits(ps, u, n) == Want(users, t, u, n)
  }

  lemma CarriesAppend(ps: seq<Publish>, us: seq<User>, qs: seq<Publish>, vs: seq<User>, t: Table)
    requires Carries(ps, us, t) && Carries(qs, vs, t)
    ensures Carries(ps + qs, us + vs, t)
  {
    forall u, n ensures Hits(ps + qs, u, n) == Want(us + vs, t, u, n) {
      HitsAppend(ps, qs, u, n);
      WantAppend(us, vs, t, u, n);
    }
  }

  function Offline(users: seq<User>, t: Table): seq<User> {
    if users == [] then []
    else
      var u := users[|users| - 1];
      Offline(users[..|users| - 1], t) + if NodesOf(t, u) == [] then [u] else []
  }

  // --- routeMany ---

  function On(perNode: map<Node, seq<User>>, n: Node): seq<User> {
    if n in perNode then perNode[n] else []
  }

  /** The inversion holds what the naive loop over `users` would deliver. */
  ghost predicate Inverted(perNode: map<Node, seq<User>>, users: seq<User>, t: Table) {
    forall u, n :: multiset(On(perNode, n))[u] == Want(users, t, u, n)
  }

  /** Appends a user to the list of each of their nodes. */
  method AddUser(perNode: map<Node, seq<User>>, uid: User, nodes: seq<Node>) returns (m: map<Node, seq<User>>)
    requires forall n :: n in perNode ==> perNode[n] != []
    ensures forall n :: n in m ==> m[n] != []
    ensures forall u, n ::
      multiset(On(m, n))[u] == multiset(On(perNode, n))[u] + if u == uid then multiset(nodes)[n] else 0
  {
    m := perNode;
    for j := 0 to |nodes|
      invariant forall n :: n in m ==> m[n] != []
      invariant forall u, n ::
        multiset(On(m, n))[u] == multiset(On(perNode, n))[u] + if u == uid then multiset(nodes[..j])[n] else 0
    {
      assert nodes[..j + 1] == nodes[..j] + [nodes[j]];
      m := m[nodes[j] := On(m, nodes[j]) + [uid]];
    }
    assert nodes[..|nodes|] == nodes;
  }

  method Invert(users: seq<User>, t: Table) returns (perNode: map<Node, seq<User>>, offline: seq<User>)
    ensures Inverted(perNode, users, t)
    ensures forall n :: n in perNode ==> perNode[n] != []
    ensures offline == Offline(users, t)
  {
    perNode, offline := map[], [];
    for i := 0 to |users|
      invariant Inverted(perNode, users[..i], t)
      invariant forall n :: n in perNode ==> perNode[n] != []
      invariant offline == Offline(users[..i], t)
    {
      var nodes := NodesOf(t, users[i]);
      assert users[..i + 1][..i] == users[..i];
      if |nodes| == 0 {
        offline := offline + [users[i]];
      } else {
        perNode := AddUser(perNode, users[i], nodes);
      }
    }
    assert users[..|users|] == users;
  }

  /** One publish per node; the map's iteration order is arbitrary. */
  method PublishAll(perNode: map<Node, seq<User>>) returns (pubs: seq<Publish>)
    ensures forall u, n :: Hits(pubs, u, n) == multiset(On(perNode, n))[u]
    ensures forall i, j :: 0 <= i < j < |pubs| ==> pubs[i].node != pubs[j].node
    ensures forall i :: 0 <= i < |pubs| ==> pubs[i].node in perNode
  {
    pubs := [];
    var todo := perNode.Keys;
    while todo != {}
      invariant todo <= perNode.Keys
      invariant forall u, n :: Hits(pubs, u, n) == if n in todo then 0 else multiset(On(perNode, n))[u]
      invariant forall i :: 0 <= i < |pubs| ==> pubs[i].node in perNode && pubs[i].node !in todo
      invariant forall i, j :: 0 <= i < j < |pubs| ==> pubs[i].node != pubs[j].node
      decreases todo
    {
      var node :| node in todo;
      todo := todo - {node};
      var p := Publish(node, perNode[node]);
      assert (pubs + [p])[..|pubs|] == pubs;
      pubs := pubs + [p];
    }
  }

  /**
   routeMany: exactly the deliveries of the naive loop, one publish per node, and in
   order the recipients bound to no node.
   */
  method RouteMany(users: seq<User>, t: Table) returns (pubs: seq<Publish>, offline: seq<User>)
    ensures Carries(pubs, users, t)
    ensures forall i, j :: 0 <= i < j < |pubs| ==> pubs[i].node != pubs[j].node
    ensures offline == Offline(users, t)
  {
    if |users| == 0 {
      return [], [];
    }
    var perNode, absent := Invert(users, t);
    pubs := PublishAll(perNode);
    offline := absent;
  }

  // --- deliverNew ---

  predicate Pushes(m: Message, muted: set<User>, u: User) {
    !m.edited && !m.deleted && u != m.sender && u !in muted
  }

  /** Whom the naive loop would notify. */
  function Notified(users: seq<User>, t: Table, m: Message, muted: set<User>): seq<User> {
    if users == [] then []
    else
      var u := users[|users| - 1];
      Notified(users[..|users| - 1], t, m, muted) + if NodesOf(t, u) == [] && Pushes(m, muted, u) then [u] else []
  }

  lemma {:induction false} NotifiedAppend(a: seq<User>, b: seq<User>, t: Table, m: Message, muted: set<User>)
    ensures Notified(a + b, t, m, muted) == Notified(a, t, m, muted) + Notified(b, t, m, muted)
  {
    if b == [] {
      assert a + b == a;
    } else {
      var c, u := b[..|b| - 1], b[|b| - 1];
      NotifiedAppend(a, c, t, m, muted);
      assert (a + b)[..|a + b| - 1] == a + c && (a + b)[|a + b| - 1] == u;
      var last := if NodesOf(t, u) == [] && Pushes(m, muted, u) then [u] else [];
      assert Notified(b, t, m, muted) == Notified(c, t, m, muted) + last;
    }
  }

  function Kept(us: seq<User>, m: Message, muted: set<User>): seq<User> {
    if us == [] then []
    else Kept(us[..|us| - 1], m, muted) + if Pushes(m, muted, us[|us| - 1]) then [us[|us| - 1]] else []
  }

  /** Filtering the offline list is the naive loop's choice. */
  lemma {:induction false} KeptOffline(users: seq<User>, t: Table, m: Message, muted: set<User>)
    ensures Kept(Offline(users, t), m, muted) == Notified(users, t, m, muted)
  {
    if users != [] {
      var k := |users| - 1;
      KeptOffline(users[..k], t, m, muted);
      var off := Offline(users[..k], t);
      assert (off + [users[k]])[..|off|] == off;
      assert off + [] == off;
    }
  }

  method DeliverNew(members: seq<User>, t: Table, m: Message, muted: set<User>)
      returns (pubs: seq<Publish>, pushes: seq<User>)
    ensures Carries(pubs, members, t)
    ensures pushes == Notified(members, t, m, muted)
  {
    pubs, pushes := [], [];
    var notify := !m.edited && !m.deleted;
    var start := 0;
    assert Carries(pubs, members[..start], t) && pushes == Notified(members[..start], t, m, muted);
    hide Carries, Notified, Kept, Offline, Pushes;
    while start < |members|
      invariant 0 <= start <= |members|
      invariant Carries(pubs, members[..start], t)
      invariant pushes == Notified(members[..start], t, m, muted)
    {
      var end := if start + ROUTE_BATCH < |members| then start + ROUTE_BATCH else |members|;
      var batch := members[start..end];
      var ps, offline := RouteMany(batch, t);
      var add := PushThese(offline, m, muted, notify);
      CarriesAppend(pubs, members[..start], ps, batch, t);
      NotifiedAppend(members[..start], batch, t, m, muted);
      KeptOffline(batch, t, m, muted);
      assert members[..start] + batch == members[..end];
      pubs, pushes := pubs + ps, pushes + add;
      start := end;
    }
    assert members[..|members|] == members;
  }

  method PushThese(offline: seq<User>, m: Message, muted: set<User>, notify: bool) returns (pushes: seq<User>)
    requires notify == (!m.edited && !m.deleted)
    ensures pushes == Kept(offline, m, muted)
  {
    pushes := [];
    for i := 0 to |offline|
      invariant pushes == Kept(offline[..i], m, muted)
    {
      assert offline[..i + 1][..i] == offline[..i];
      if notify && offline[i] != m.sender && offline[i] !in muted {
        pushes := pushes + [offline[i]];
      }
    }
    assert offline[..|offline|] == offline;
  }

  // --- pages ---

  function Above(s: set<User>, after: int): set<User> {
    set u | u in s && u > after
  }

  lemma {:induction false} HasLeast(s: set<User>, x: User)
    requires x in s
    ensures exists m :: m in s && forall y :: y in s ==> m <= y
    decreases x
  {
    if y :| y in s && y < x {
      HasLeast(s, y);
    } else {
      assert forall y :: y in s ==> x <= y;
    }
  }

  function Least(s: set<User>): (m: User)
    requires s != {}
    ensures m in s && forall x :: x in s ==> m <= x
  {
    assert exists m :: m in s && forall x :: x in s ==> m <= x by {
      var x :| x in s;
      HasLeast(s, x);
    }
    var m :| m in s && forall x :: x in s ==> m <= x;
    m
  }

  /** The keyset page contract: the first `limit` members after the cursor, ascending. */
  function Page(s: set<User>, after: int, limit: nat): seq<User>
    decreases limit
  {
    if limit == 0 || Above(s, after) == {} then []
    else [Least(Above(s, after))] + Page(s, Least(Above(s, after)), limit - 1)
  }

  ghost predicate Ascending(xs: seq<User>) {
    forall i, j :: 0 <= i < j < |xs| ==> xs[i] < xs[j]
  }

  lemma {:induction false} PageShape(s: set<User>, after: int, limit: nat)
    ensures
      var p := Page(s, after, limit);
      |p| <= limit && Ascending(p) && forall i :: 0 <= i < |p| ==> p[i] in s && p[i] > after
    decreases limit
  {
    if limit > 0 && Above(s, after) != {} {
      PageShape(s, Least(Above(s, after)), limit - 1);
    }
  }

  /** Whoever is after the cursor is on the page, or after a full page. */
  lemma {:induction false} PageCovers(s: set<User>, after: int, limit: nat, u: User)
    requires u in s && u > after
    ensures
      var p := Page(s, after, limit);
      u in p || (|p| == limit && (p == [] || p[|p| - 1] < u))
    decreases limit
  {
    assert u in Above(s, after);
    if limit > 0 {
      var m := Least(Above(s, after));
      if u != m {
        PageCovers(s, m, limit - 1, u);
      }
    }
  }

  lemma PageHolds(s: set<User>, after: int, limit: nat)
    ensures
      var p := Page(s, after, limit);
      && |p| <= limit
      && Ascending(p)
      && (forall i :: 0 <= i < |p| ==> p[i] in s && p[i] > after)
      && (forall u :: u in s && u > after ==> u in p || (|p| == limit && (p == [] || p[|p| - 1] < u)))
  {
    var p := Page(s, after, limit);
    PageShape(s, after, limit);
    hide Page;
    forall u | u in s && u > after ensures u in p || (|p| == limit && (p == [] || p[|p| - 1] < u)) {
      PageCovers(s, after, limit, u);
    }
  }

  // --- walking a hot chat while its membership changes ---

  function Flat(pages: seq<seq<User>>): seq<User> {
    if pages == [] then [] else Flat(pages[..|pages| - 1]) + pages[|pages| - 1]
  }

  /** Everything visited so far: ascending, up to the cursor, and seen in some read. */
  ghost predicate Visited(pages: seq<seq<User>>, after: int, hist: nat -> set<User>) {
    && Ascending(Flat(pages))
    && (forall i :: 0 <= i < |Flat(pages)| ==> Flat(pages)[i] <= after)
    && (forall u :: u in Flat(pages) ==> exists k: nat :: k < |pages| && u in hist(k))
  }

  /** Nobody present in every read so far has been passed over. */
  ghost predicate NoneMissed(pages: seq<seq<User>>, upTo: int, hist: nat -> set<User>, pagesRead: nat) {
    forall u: User :: u <= upTo && (forall k: nat :: k < pagesRead ==> u in hist(k)) ==> u in Flat(pages)
  }

  lemma FlatAppend(pages: seq<seq<User>>, page: seq<User>)
    ensures Flat(pages + [page]) == Flat(pages) + page
  {
    assert (pages + [page])[..|pages|] == pages;
  }

  lemma VisitedNext(pages: seq<seq<User>>, after: int, page: seq<User>, hist: nat -> set<User>)
    requires Visited(pages, after, hist) && page != [] && Ascending(page)
    requires forall i :: 0 <= i < |page| ==> page[i] in hist(|pages|) && page[i] > after
    ensures page[|page| - 1] > after && Visited(pages + [page], page[|page| - 1], hist)
  {
    var n := |pages|;
    FlatAppend(pages, page);
    hide Flat;
    forall u | u in Flat(pages) + page ensures exists k: nat :: k < n + 1 && u in hist(k) {
      if u in Flat(pages) {
        var k: nat :| k < n && u in hist(k);
        assert k < n + 1;
      } else {
        assert n < n + 1 && u in hist(n);
      }
    }
  }

  /** A member at every read is visited before, on the page, or still ahead of it. */
  lemma NotPassedOver(pages: seq<seq<User>>, after: int, hist: nat -> set<User>, u: User)
    requires NoneMissed(pages, after, hist, |pages|)
    requires forall k: nat :: k < |pages| + 1 ==> u in hist(k)
    ensures
      var page := Page(hist(|pages|), after, SHARD_SIZE);
      u in Flat(pages) + page || (|page| == SHARD_SIZE && page[|page| - 1] < u)
  {
    var n := |pages|;
    assert n < n + 1 && u in hist(n);
    if u > after {
      PageCovers(hist(n), after, SHARD_SIZE, u);
    }
  }

  lemma VisitPage(pages: seq<seq<User>>, after: int, hist: nat -> set<User>)
    requires Visited(pages, after, hist) && NoneMissed(pages, after, hist, |pages|)
    ensures
      var page := Page(hist(|pages|), after, SHARD_SIZE);
      && |page| <= SHARD_SIZE
      && (page != [] ==>
            && page[|page| - 1] > after && page[|page| - 1] in hist(|pages|)
            && Visited(pages + [page], page[|page| - 1], hist)
            && NoneMissed(pages + [page], page[|page| - 1], hist, |pages| + 1))
      && (|page| < SHARD_SIZE ==>
            forall u: User :: (forall k: nat :: k < |pages| + 1 ==> u in hist(k)) ==> u in Flat(pages + [page]))
  {
    var page := Page(hist(|pages|), after, SHARD_SIZE);
    PageShape(hist(|pages|), after, SHARD_SIZE);
    FlatAppend(pages, page);
    if page != [] {
      VisitedNext(pages, after, page, hist);
    }
    hide Page, Flat, Visited, Ascending;
    forall u: User | forall k: nat :: k < |pages| + 1 ==> u in hist(k)
      ensures u in Flat(pages + [page]) || (|page| == SHARD_SIZE && page[|page| - 1] < u)
    {
      NotPassedOver(pages, after, hist, u);
    }
  }

  /**
   shardHotChat: one job per page, page `k` read from the membership `hist(k)` of that
   moment. Nobody is put in two jobs, only members are, and everyone who was a member
   at every read is in exactly one. User ids come from a finite space.
   */
  method ShardHotChat(hist: nat -> set<User>, ghost ids: set<User>) returns (jobs: seq<seq<User>>, ghost pagesRead: nat)
    requires forall k :: hist(k) <= ids
    ensures Ascending(Flat(jobs))
    ensures forall u :: u in Flat(jobs) ==> exists k: nat :: k < pagesRead && u in hist(k)
    ensures forall u: User :: (forall k: nat :: k < pagesRead ==> u in hist(k)) ==> u in Flat(jobs)
    ensures forall i :: 0 <= i < |jobs| ==> 0 < |jobs[i]| <= SHARD_SIZE
  {
    hide Page;
    var after: int := -1;
    jobs, pagesRead := [], 0;
    while true
      invariant pagesRead == |jobs| && after >= -1
      invariant Visited(jobs, after, hist) && NoneMissed(jobs, after, hist, |jobs|)
      invariant forall i :: 0 <= i < |jobs| ==> 0 < |jobs[i]| <= SHARD_SIZE
      decreases Above(ids, after)
    {
      var page := Page(hist(|jobs|), after, SHARD_SIZE);
      VisitPage(jobs, after, hist);
      pagesRead := pagesRead + 1;
      if |page| == 0 {
        FlatAppend(jobs, page);
        assert Flat(jobs) + page == Flat(jobs);
        return;
      }
      assert page[|page| - 1] in Above(ids, after);
      after := page[|page| - 1];
      jobs := jobs + [page];
      if |page| < SHARD_SIZE {
        return;
      }
    }
  }

  // --- the whole of onMessage ---

  lemma {:induction false} AscendingIsDistinct(xs: seq<User>)
    requires Ascending(xs)
    ensures Distinct(xs)
  {
  }

  /** Removing one job from the middle removes its members from the whole. */
  lemma {:induction false} FlatSplit(jobs: seq<seq<User>>, k: nat)
    requires k < |jobs|
    ensures multiset(Flat(jobs)) == multiset(Flat(jobs[..k] + jobs[k + 1..])) + multiset(jobs[k])
    decreases |jobs|
  {
    hide Flat;
    var n := |jobs| - 1;
    assert jobs == jobs[..n] + [jobs[n]];
    FlatAppend(jobs[..n], jobs[n]);
    if k == n {
      assert jobs[..k] + jobs[k + 1..] == jobs[..n];
    } else {
      FlatSplit(jobs[..n], k);
      var rest := jobs[..n][..k] + jobs[..n][k + 1..];
      assert jobs[..k] + jobs[k + 1..] == rest + [jobs[n]];
      FlatAppend(rest, jobs[n]);
    }
  }

  /** What the naive loop wants depends on how often a user is listed, not where. */
  lemma {:induction false} WantByCount(users: seq<User>, t: Table, u: User, n: Node)
    ensures Want(users, t, u, n) == multiset(users)[u] * multiset(NodesOf(t, u))[n]
  {
    if users != [] {
      var k := |users| - 1;
      WantByCount(users[..k], t, u, n);
      assert users == users[..k] + [users[k]];
      var c := multiset(NodesOf(t, u))[n];
      assert (multiset(users[..k])[u] + 1) * c == multiset(users[..k])[u] * c + c;
    }
  }

  lemma {:induction false} NotifiedByCount(users: seq<User>, t: Table, m: Message, muted: set<User>, u: User)
    ensures multiset(Notified(users, t, m, muted))[u] ==
      if NodesOf(t, u) == [] && Pushes(m, muted, u) then multiset(users)[u] else 0
  {
    if users != [] {
      var k := |users| - 1;
      NotifiedByCount(users[..k], t, m, muted, u);
      assert users == users[..k] + [users[k]];
    }
  }

  /** Deliveries and pushes of the jobs done, next to the members still to do. */
  ghost predicate Progress(pubs: seq<Publish>, pushes: seq<User>, done: multiset<User>, t: Table, m: Message,
                           muted: set<User>) {
    && (forall u, n :: Hits(pubs, u, n) == done[u] * multiset(NodesOf(t, u))[n])
    && (forall u :: multiset(pushes)[u] == if NodesOf(t, u) == [] && Pushes(m, muted, u) then done[u] else 0)
  }

  lemma JobHits(pubs: seq<Publish>, ps: seq<Publish>, done: nat, job: seq<User>, t: Table, u: User, n: Node)
    requires Hits(pubs, u, n) == done * multiset(NodesOf(t, u))[n] && Hits(ps, u, n) == Want(job, t, u, n)
    ensures Hits(pubs + ps, u, n) == (done + multiset(job)[u]) * multiset(NodesOf(t, u))[n]
  {
    HitsAppend(pubs, ps, u, n);
    WantByCount(job, t, u, n);
  }

  lemma JobDone(pubs: seq<Publish>, pushes: seq<User>, done: multiset<User>, job: seq<User>, ps: seq<Publish>,
                t: Table, m: Message, muted: set<User>)
    requires Progress(pubs, pushes, done, t, m, muted) && Carries(ps, job, t)
    ensures Progress(pubs + ps, pushes + Notified(job, t, m, muted), done + multiset(job), t, m, muted)
  {
    hide Hits, Want, Notified, NodesOf, Pushes;
    forall u, n ensures Hits(pubs + ps, u, n) == (done + multiset(job))[u] * multiset(NodesOf(t, u))[n] {
      JobHits(pubs, ps, done[u], job, t, u, n);
    }
    forall u ensures multiset(pushes + Notified(job, t, m, muted))[u] ==
      if NodesOf(t, u) == [] && Pushes(m, muted, u) then (done + multiset(job))[u] else 0 {
      NotifiedByCount(job, t, m, muted, u);
    }
  }

  lemma OneJobDone(job: seq<User>, ps: seq<Publish>, t: Table, m: Message, muted: set<User>)
    requires Carries(ps, job, t)
    ensures Progress(ps, Notified(job, t, m, muted), multiset(job), t, m, muted)
  {
    JobDone([], [], multiset{}, job, ps, t, m, muted);
    var pushes := Notified(job, t, m, muted);
    assert [] + ps == ps && [] + pushes == pushes && multiset{} + multiset(job) == multiset(job);
  }

  /** onShard by competing workers: every job is taken once, in any order. */
  method RunJobs(jobs: seq<seq<User>>, t: Table, m: Message, muted: set<User>)
      returns (pubs: seq<Publish>, pushes: seq<User>)
    ensures Progress(pubs, pushes, multiset(Flat(jobs)), t, m, muted)
  {
    pubs, pushes := [], [];
    var left := jobs;
    ghost var done: multiset<User> := multiset{};
    while left != []
      invariant done + multiset(Flat(left)) == multiset(Flat(jobs))
      invariant Progress(pubs, pushes, done, t, m, muted)
      decreases |left|
    {
      var k: nat :| k < |left|;
      var ps, add := DeliverNew(left[k], t, m, muted);
      FlatSplit(left, k);
      JobDone(pubs, pushes, done, left[k], ps, t, m, muted);
      pubs, pushes, done := pubs + ps, pushes + add, done + multiset(left[k]);
      left := left[..k] + left[k + 1..];
    }
    assert multiset(Flat(left)) == multiset{};
  }

  /** The user has a connection on the node, or on none. */
  predicate Bound(t: Table, u: User, n: Node) { u in t && n in t[u] }

  predicate Absent(t: Table, u: User) { u !in t || t[u] == [] }

  /** Each binding of these members gets one delivery, and a new message is pushed once to each
      of them who is absent, is not its sender and has not muted the chat. */
  ghost predicate Exactly(pubs: seq<Publish>, pushes: seq<User>, members: set<User>, t: Table, m: Message,
                          muted: set<User>) {
    && (forall u, n :: Hits(pubs, u, n) == if u in members && Bound(t, u, n) then 1 else 0)
    && (forall u :: multiset(pushes)[u] ==
          if u in members && Absent(t, u) && u != m.sender && u !in muted && !m.edited && !m.deleted then 1 else 0)
  }

  /** The router names a node once. */
  ghost predicate Routes(t: Table) { forall u :: u in t ==> Distinct(t[u]) }

  lemma NodesAre(t: Table, u: User)
    ensures Absent(t, u) <==> NodesOf(t, u) == []
    ensures forall n :: Bound(t, u, n) <==> n in NodesOf(t, u)
    ensures Routes(t) ==> Distinct(NodesOf(t, u))
  {
  }

  lemma ProgressIsExact(pubs: seq<Publish>, pushes: seq<User>, users: seq<User>, members: set<User>, t: Table,
                        m: Message, muted: set<User>)
    requires Progress(pubs, pushes, multiset(users), t, m, muted)
    requires Distinct(users) && forall u :: u in users <==> u in members
    requires Routes(t)
    ensures Exactly(pubs, pushes, members, t, m, muted)
  {
    hide Hits, Routes, NodesOf, Bound, Absent;
    forall u, n ensures Hits(pubs, u, n) == if u in members && Bound(t, u, n) then 1 else 0 {
      NodesAre(t, u);
      DistinctCount(users, u);
      DistinctCount(NodesOf(t, u), n);
    }
    forall u ensures multiset(pushes)[u] ==
      if u in members && Absent(t, u) && u != m.sender && u !in muted && !m.edited && !m.deleted then 1 else 0
    {
      NodesAre(t, u);
      DistinctCount(users, u);
    }
  }

  /**
   onMessage for a membership that holds still: inline or sharded, every binding of a
   member to a node gets exactly one delivery and nobody else gets any; push jobs go,
   once each, to exactly the members bound to no node who are not the sender and have
   not muted the chat, and to nobody for an edit or a deletion.
   */
  method OnMessage(members: set<User>, t: Table, m: Message, muted: set<User>)
      returns (pubs: seq<Publish>, pushes: seq<User>)
    requires Routes(t)
    ensures Exactly(pubs, pushes, members, t, m, muted)
  {
    var first := Page(members, -1, SHARD_THRESHOLD + 1);
    PageHolds(members, -1, SHARD_THRESHOLD + 1);
    AscendingIsDistinct(first);
    hide Page, Flat, Hits, Want, Notified, NodesOf, Pushes, Exactly;
    if |first| > SHARD_THRESHOLD {
      var jobs, _ := ShardHotChat(_ => members, members);
      AscendingIsDistinct(Flat(jobs));
      pubs, pushes := RunJobs(jobs, t, m, muted);
      ProgressIsExact(pubs, pushes, Flat(jobs), members, t, m, muted);
    } else {
      pubs, pushes := DeliverNew(first, t, m, muted);
      OneJobDone(first, pubs, t, m, muted);
      ProgressIsExact(pubs, pushes, first, members, t, m, muted);
    }
  }

  /** Those who were members at every one of the first `taken` reads, and none who never was. */
  ghost predicate Covers(reached: set<User>, hist: nat -> set<User>, taken: nat) {
    && (forall u :: u in reached ==> exists k: nat :: k < taken && u in hist(k))
    && (forall u: User :: (forall k: nat :: k < taken ==> u in hist(k)) ==> u in reached)
  }

  lemma CoversFromBefore(reached: set<User>, hist: nat -> set<User>, later: nat -> set<User>, n: nat)
    requires Covers(reached, later, n) && forall k: nat :: later(k) == hist(k + 1)
    ensures Covers(reached, hist, n + 1)
  {
    forall u | u in reached ensures exists k: nat :: k < n + 1 && u in hist(k) {
      var k: nat :| k < n && u in later(k);
      assert u in hist(k + 1);
    }
    forall u: User | forall k: nat :: k < n + 1 ==> u in hist(k) ensures u in reached {
      forall k: nat | k < n ensures u in later(k) {
        assert u in hist(k + 1);
      }
    }
  }

  method DeliverSharded(hist: nat -> set<User>, ghost ids: set<User>, t: Table, m: Message, muted: set<User>)
      returns (pubs: seq<Publish>, pushes: seq<User>, ghost reached: set<User>, ghost taken: nat)
    requires forall k :: hist(k) <= ids
    requires Routes(t)
    ensures Exactly(pubs, pushes, reached, t, m, muted) && Covers(reached, hist, taken)
  {
    hide Flat, Hits, Want, Notified, NodesOf, Pushes, Exactly;
    var jobs, n := ShardHotChat(hist, ids);
    taken := n;
    AscendingIsDistinct(Flat(jobs));
    pubs, pushes := RunJobs(jobs, t, m, muted);
    reached := set u | u in Flat(jobs);
    ProgressIsExact(pubs, pushes, Flat(jobs), reached, t, m, muted);
  }

  /**
   onMessage while the membership changes, `hist(k)` at its k-th read: whoever is a member
   at every read is among those `reached`, who were all members at some read; each
   binding of theirs gets exactly one delivery, and each of them who is due a push gets
   exactly one. Nobody else gets anything.
   */
  method OnMessageMoving(hist: nat -> set<User>, ghost ids: set<User>, t: Table, m: Message, muted: set<User>)
      returns (pubs: seq<Publish>, pushes: seq<User>, ghost reached: set<User>, ghost taken: nat)
    requires forall k :: hist(k) <= ids
    requires Routes(t)
    ensures Exactly(pubs, pushes, reached, t, m, muted) && Covers(reached, hist, taken)
  {
    hide *;
    var first := Page(hist(0), -1, SHARD_THRESHOLD + 1);
    FirstPage(hist(0));
    if |first| > SHARD_THRESHOLD {
      var later := (k: nat) => hist(k + 1);
      var ps, qs, who, n := DeliverSharded(later, ids, t, m, muted);
      CoversFromBefore(who, hist, later, n);
      return ps, qs, who, n + 1;
    }
    pubs, pushes := DeliverInline(first, hist(0), t, m, muted);
    reached, taken := hist(0), 1;
    CoversOnce(hist);
  }

  /** A first page that is not too long is the whole membership. */
  lemma FirstPage(members: set<User>)
    ensures
      var first := Page(members, -1, SHARD_THRESHOLD + 1);
      |first| <= SHARD_THRESHOLD ==> Ascending(first) && forall u :: u in first <==> u in members
  {
    PageHolds(members, -1, SHARD_THRESHOLD + 1);
    hide Page;
  }

  method DeliverInline(first: seq<User>, ghost members: set<User>, t: Table, m: Message, muted: set<User>)
      returns (pubs: seq<Publish>, pushes: seq<User>)
    requires Ascending(first) && forall u :: u in first <==> u in members
    requires Routes(t)
    ensures Exactly(pubs, pushes, members, t, m, muted)
  {
    AscendingIsDistinct(first);
    hide Hits, Want, Notified, NodesOf, Pushes, Exactly;
    pubs, pushes := DeliverNew(first, t, m, muted);
    OneJobDone(first, pubs, t, m, muted);
    ProgressIsExact(pubs, pushes, first, members, t, m, muted);
  }

  lemma CoversOnce(hist: nat -> set<User>)
    ensures Covers(hist(0), hist, 1)
  {
  }

  // --- broadcast ---

  function Skipping(users: seq<User>, skip: Option<User>): seq<User> {
    if users == [] then []
    else Skipping(users[..|users| - 1], skip) + if Some(users[|users| - 1]) == skip then [] else [users[|users| - 1]]
  }

  /**
   broadcast over the members visited: all but the one to skip, through batches that
   never exceed the bound.
   */
  method Broadcast(visited: seq<User>, skip: Option<User>, t: Table)
      returns (pubs: seq<Publish>, batches: seq<seq<User>>)
    ensures Carries(pubs, Skipping(visited, skip), t)
    ensures Flat(batches) == Skipping(visited, skip)
    ensures forall i :: 0 <= i < |batches| ==> 0 < |batches[i]| <= ROUTE_BATCH
  {
    pubs, batches := [], [];
    var batch := [];
    for i := 0 to |visited|
      invariant |batch| < ROUTE_BATCH
      invariant Carries(pubs, Flat(batches), t)
      invariant Flat(batches) + batch == Skipping(visited[..i], skip)
      invariant forall k :: 0 <= k < |batches| ==> 0 < |batches[k]| <= ROUTE_BATCH
    {
      assert visited[..i + 1][..i] == visited[..i];
      if Some(visited[i]) != skip {
        batch := batch + [visited[i]];
        if |batch| == ROUTE_BATCH {
          pubs, batches, batch := Flush(pubs, batches, batch, t);
        }
      }
    }
    assert visited[..|visited|] == visited;
    pubs, batches, batch := Flush(pubs, batches, batch, t);
    assert Flat(batches) + [] == Flat(batches);
  }

  method Flush(pubs: seq<Publish>, batches: seq<seq<User>>, batch: seq<User>, t: Table)
      returns (pubs': seq<Publish>, batches': seq<seq<User>>, batch': seq<User>)
    requires Carries(pubs, Flat(batches), t) && |batch| <= ROUTE_BATCH
    requires forall k :: 0 <= k < |batches| ==> 0 < |batches[k]| <= ROUTE_BATCH
    ensures Carries(pubs', Flat(batches'), t) && batch' == []
    ensures Flat(batches') == Flat(batches) + batch
    ensures forall k :: 0 <= k < |batches'| ==> 0 < |batches'[k]| <= ROUTE_BATCH
  {
    if |batch| == 0 {
      assert Flat(batches) + batch == Flat(batches);
      return pubs, batches, batch;
    }
    var ps, _ := RouteMany(batch, t);
    CarriesAppend(pubs, Flat(batches), ps, batch, t);
    FlatAppend(batches, batch);
    return pubs + ps, batches + [batch], [];
  }

  lemma {:induction false} SkipsOnlyTheNamed(users: seq<User>, skip: Option<User>)
    ensures forall u :: multiset(Skipping(users, skip))[u] == if Some(u) == skip then 0 else multiset(users)[u]
  {
    if users != [] {
      var k := |users| - 1;
      SkipsOnlyTheNamed(users[..k], skip);
      assert users == users[..k] + [users[k]];
    }
  }

  lemma WantOnceUnlessSkipped(users: seq<User>, skip: Option<User>, t: Table, u: User, n: Node)
    requires Distinct(users) && Routes(t)
    ensures Want(Skipping(users, skip), t, u, n) == if u in users && Some(u) != skip && Bound(t, u, n) then 1 else 0
  {
    NodesAre(t, u);
    SkipsOnlyTheNamed(users, skip);
    WantByCount(Skipping(users, skip), t, u, n);
    DistinctCount(users, u);
    DistinctCount(NodesOf(t, u), n);
  }

  /**
   broadcast to a hot chat whose membership changes between pages: every binding of a
   member present at every read gets exactly one delivery, no binding gets two, and
   the skipped user and those never seen as members get none.
   */
  method BroadcastHot(hist: nat -> set<User>, ghost ids: set<User>, skip: Option<User>, t: Table)
      returns (pubs: seq<Publish>, ghost pagesRead: nat)
    requires forall k :: hist(k) <= ids
    requires Routes(t)
    ensures forall u: User, n: Node :: Hits(pubs, u, n) <= 1
    ensures forall u: User, n: Node ::
      Hits(pubs, u, n) == 1 ==> Some(u) != skip && Bound(t, u, n) && exists k: nat :: k < pagesRead && u in hist(k)
    ensures forall u: User, n: Node ::
      (forall k: nat :: k < pagesRead ==> u in hist(k)) && Some(u) != skip && Bound(t, u, n) ==>
      Hits(pubs, u, n) == 1
  {
    var jobs, n := ShardHotChat(hist, ids);
    pagesRead := n;
    var visited := Flat(jobs);
    AscendingIsDistinct(visited);
    var ps, _ := Broadcast(visited, skip, t);
    pubs := ps;
    hide Hits, Want, Bound, Routes, Distinct;
    forall u: User, n: Node ensures Hits(pubs, u, n) ==
      if u in visited && Some(u) != skip && Bound(t, u, n) then 1 else 0 {
      WantOnceUnlessSkipped(visited, skip, t, u, n);
    }
  }
}
