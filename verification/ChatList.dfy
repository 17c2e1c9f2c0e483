/**
 The fallback chat list: ids as decimal text compared numerically, read in pages that
 start after the last id seen.
 */
module ChatList {
  import opened Decimal
  import opened Wrappers

  type Id = string
  type User = nat

  datatype Kind = Direct | Secret | Group | Channel
  datatype Member = Member(user: User, role: nat)
  datatype Chat = Chat(kind: Kind, members: seq<Member>)
  datatype Summary = Summary(id: Id, chat: Chat, myRole: Option<nat>, peer: Option<User>)

  const MAX_PAGE := 200
  const DEFAULT_PAGE := 100

  // --- ids ---

  /** Go's string order. */
  predicate Before(a: string, b: string) {
    b != "" && (a == "" || a[0] < b[0] || (a[0] == b[0] && Before(a[1..], b[1..])))
  }

  predicate LessId(a: Id, b: Id) {
    if |a| != |b| then |a| < |b| else Before(a, b)
  }

  /** A decimal without leading zeros. */
  predicate Canonical(s: Id) { s != "" && AllDigits(s) && (|s| > 1 ==> s[0] != '0') }

  lemma {:induction false} BeforeSnoc(a: string, b: string)
    requires |a| == |b| > 0
    ensures
      var n := |a| - 1;
      Before(a, b) <==> Before(a[..n], b[..n]) || (a[..n] == b[..n] && a[n] < b[n])
  {
    var n := |a| - 1;
    if n > 0 {
      BeforeSnoc(a[1..], b[1..]);
      assert a[1..][..n - 1] == a[..n][1..] && b[1..][..n - 1] == b[..n][1..];
      assert a[..n] == [a[0]] + a[..n][1..] && b[..n] == [b[0]] + b[..n][1..];
    }
  }

  lemma {:induction false} SameLength(a: Id, b: Id)
    requires |a| == |b| && AllDigits(a) && AllDigits(b)
    ensures Before(a, b) <==> Value(a) < Value(b)
    ensures a == b <==> Value(a) == Value(b)
  {
    if a != "" {
      var n := |a| - 1;
      BeforeSnoc(a, b);
      SameLength(a[..n], b[..n]);
      assert a == a[..n] + [a[n]] && b == b[..n] + [b[n]];
      assert a[n] < b[n] <==> (a[n] - '0') as nat < (b[n] - '0') as nat;
      assert a[n] == b[n] <==> (a[n] - '0') as nat == (b[n] - '0') as nat;
    }
  }

  function Pow10(n: nat): nat { if n == 0 then 1 else 10 * Pow10(n - 1) }

  lemma {:induction false} Bounds(s: Id)
    requires AllDigits(s)
    ensures Value(s) < Pow10(|s|)
    ensures s != "" && s[0] != '0' ==> Value(s) >= Pow10(|s| - 1)
  {
    if s != "" {
      Bounds(s[..|s| - 1]);
      if |s| > 1 {
        assert s[..|s| - 1][0] == s[0];
      }
    }
  }

  lemma {:induction false} PowGrows(m: nat, n: nat)
    requires m <= n
    ensures Pow10(m) <= Pow10(n)
  {
    if m < n {
      PowGrows(m, n - 1);
    }
  }

  /** lessID is the order of the numbers, on canonical decimals of any length. */
  lemma LessIdIsNumeric(a: Id, b: Id)
    requires Canonical(a) && Canonical(b)
    ensures LessId(a, b) <==> Value(a) < Value(b)
    ensures a == b <==> Value(a) == Value(b)
  {
    if |a| == |b| {
      SameLength(a, b);
    } else if |a| < |b| {
      ShorterIsSmaller(a, b);
    } else {
      ShorterIsSmaller(b, a);
    }
    hide Before, Value;
  }

  lemma ShorterIsSmaller(a: Id, b: Id)
    requires Canonical(a) && Canonical(b) && |a| < |b|
    ensures Value(a) < Value(b)
  {
    hide Value, Pow10;
    Bounds(a);
    Bounds(b);
    PowGrows(|a|, |b| - 1);
  }

  lemma {:induction false} BeforeIsTotal(a: string, b: string)
    ensures a == b || Before(a, b) || Before(b, a)
    ensures !(Before(a, b) && Before(b, a)) && !Before(a, a)
  {
    if a != "" && b != "" {
      BeforeIsTotal(a[1..], b[1..]);
      assert a == [a[0]] + a[1..] && b == [b[0]] + b[1..];
    }
    if a != "" {
      BeforeIsTotal(a[1..], a[1..]);
    }
  }

  lemma {:induction false} BeforeChains(a: string, b: string, c: string)
    requires Before(a, b) && Before(b, c)
    ensures Before(a, c)
  {
    if a != "" && b != "" && a[0] == b[0] == c[0] {
      BeforeChains(a[1..], b[1..], c[1..]);
    }
  }

  lemma LessIdChains(a: Id, b: Id, c: Id)
    requires LessId(a, b) && LessId(b, c)
    ensures LessId(a, c)
  {
    if |a| == |b| == |c| {
      BeforeChains(a, b, c);
    }
  }

  // --- sorting ---

  predicate Ascending(s: seq<Id>) { forall i, j :: 0 <= i < j < |s| ==> LessId(s[i], s[j]) }

  function Insert(x: Id, s: seq<Id>): seq<Id> {
    if s == [] || LessId(x, s[0]) then [x] + s else [s[0]] + Insert(x, s[1..])
  }

  function Sort(s: seq<Id>): seq<Id> {
    if s == [] then [] else Insert(s[0], Sort(s[1..]))
  }

  lemma {:induction false} InsertKeeps(x: Id, s: seq<Id>)
    requires Ascending(s) && x !in s
    ensures Ascending(Insert(x, s))
    ensures forall y :: y in Insert(x, s) <==> y == x || y in s
  {
    if s == [] {
    } else if LessId(x, s[0]) {
      forall j | 0 < j < |s| ensures LessId(x, s[j]) {
        LessIdChains(x, s[0], s[j]);
      }
    } else {
      BeforeIsTotal(x, s[0]);
      InsertKeeps(x, s[1..]);
      var r := Insert(x, s[1..]);
      assert s == [s[0]] + s[1..];
      forall j | 0 <= j < |r| ensures LessId(s[0], r[j]) {
        assert r[j] in r;
        if r[j] != x {
          var k :| 0 <= k < |s[1..]| && s[1..][k] == r[j];
          assert s[k + 1] == r[j];
        }
      }
    }
  }

  lemma {:induction false} SortSorts(s: seq<Id>)
    requires Distinct(s)
    ensures Ascending(Sort(s))
    ensures forall y :: y in Sort(s) <==> y in s
  {
    if s != [] {
      assert Distinct(s[1..]);
      SortSorts(s[1..]);
      assert s == [s[0]] + s[1..];
      InsertKeeps(s[0], Sort(s[1..]));
    }
  }

  // --- one page ---

  /** The existing chats after `after`, in the order given; all of them from "". */
  function Wanted(ids: seq<Id>, after: Id, chats: map<Id, Chat>): seq<Id> {
    if ids == [] then []
    else
      var id := ids[|ids| - 1];
      Wanted(ids[..|ids| - 1], after, chats) +
      if (after == "" || LessId(after, id)) && id in chats then [id] else []
  }

  function Page(ids: seq<Id>, after: Id, chats: map<Id, Chat>, limit: nat): seq<Id> {
    var w := Wanted(ids, after, chats);
    if |w| <= limit then w else w[..limit]
  }

  ghost predicate IsPeer(members: seq<Member>, me: User, peer: Option<User>) {
    match peer
    case None => forall i :: 0 <= i < |members| ==> members[i].user == me
    case Some(p) =>
      p != me &&
      exists i :: 0 <= i < |members| && members[i].user == p &&
        forall j :: 0 <= j < i ==> members[j].user == me
  }

  ghost predicate IsRole(members: seq<Member>, me: User, role: Option<nat>) {
    match role
    case None => forall i :: 0 <= i < |members| ==> members[i].user != me
    case Some(r) => Member(me, r) in members
  }

  ghost predicate Describes(sum: Summary, id: Id, chats: map<Id, Chat>, me: User) {
    && id in chats && sum.id == id && sum.chat == chats[id]
    && IsRole(chats[id].members, me, sum.myRole)
    && if chats[id].kind in {Direct, Secret} then IsPeer(chats[id].members, me, sum.peer) else sum.peer == None
  }

  method Summarise(id: Id, chats: map<Id, Chat>, me: User) returns (sum: Summary)
    requires id in chats
    ensures Describes(sum, id, chats, me)
  {
    var members := chats[id].members;
    var role, peer := None, None;
    for i := 0 to |members|
      invariant IsRole(members[..i], me, role)
    {
      if members[i].user == me {
        role := Some(members[i].role);
        assert members[..i + 1][i] == Member(me, members[i].role);
        break;
      }
    }
    assert members[..|members|] == members;
    if chats[id].kind == Direct || chats[id].kind == Secret {
      var i := 0;
      while i < |members| && members[i].user == me
        invariant i <= |members| && forall j :: 0 <= j < i ==> members[j].user == me
      {
        i := i + 1;
      }
      if i < |members| {
        peer := Some(members[i].user);
      }
    }
    sum := Summary(id, chats[id], role, peer);
  }

  /** userChatsSlow: sort every id, then read chats until the page is full. */
  method UserChatsSlow(ids: seq<Id>, chats: map<Id, Chat>, me: User, after: Id, limit: nat)
    returns (out: seq<Summary>)
    ensures
      var page := Page(Sort(ids), after, chats, limit);
      |out| == |page| && forall i :: 0 <= i < |page| ==> Describes(out[i], page[i], chats, me)
    ensures
      var all := Wanted(Sort(ids), after, chats);
      && |out| == (if |all| < limit then |all| else limit)
      && forall i :: 0 <= i < |out| ==> Describes(out[i], all[i], chats, me)
  {
    var s := Sort(ids);
    out := [];
    for k := 0 to |s|
      invariant |out| == |Wanted(s[..k], after, chats)| <= limit
      invariant forall i :: 0 <= i < |out| ==> Describes(out[i], Wanted(s[..k], after, chats)[i], chats, me)
    {
      var id := s[k];
      assert s[..k + 1][..k] == s[..k];
      WantedGrows(s, k, after, chats);
      if after != "" && !LessId(after, id) {
        continue;
      }
      if |out| == limit {
        return;
      }
      if id !in chats {
        continue;
      }
      var sum := Summarise(id, chats, me);
      out := out + [sum];
    }
    assert s[..|s|] == s;
  }

  /** The fallback of UserChatPage: an unusable limit means the default one. */
  method UserChatPage(ids: seq<Id>, chats: map<Id, Chat>, me: User, after: Id, limit: int)
    returns (out: seq<Summary>)
    ensures |out| <= MAX_PAGE
    ensures
      var page := Page(Sort(ids), after, chats, if 0 < limit <= MAX_PAGE then limit else DEFAULT_PAGE);
      |out| == |page| && forall i :: 0 <= i < |page| ==> Describes(out[i], page[i], chats, me)
  {
    var n := limit;
    if n <= 0 || n > MAX_PAGE {
      n := DEFAULT_PAGE;
    }
    out := UserChatsSlow(ids, chats, me, after, n);
  }

  lemma {:induction false} WantedGrows(ids: seq<Id>, k: nat, after: Id, chats: map<Id, Chat>)
    requires k <= |ids|
    ensures Wanted(ids[..k], after, chats) <= Wanted(ids, after, chats)
  {
    if k < |ids| {
      WantedGrows(ids[..|ids| - 1], k, after, chats);
      assert ids[..|ids| - 1][..k] == ids[..k];
    } else {
      assert ids[..k] == ids;
    }
  }

  // --- walking the list ---

  lemma {:induction false} WantedIs(ids: seq<Id>, after: Id, chats: map<Id, Chat>)
    requires Ascending(ids)
    ensures Ascending(Wanted(ids, after, chats))
    ensures forall id :: id in Wanted(ids, after, chats) <==>
      id in ids && id in chats && (after == "" || LessId(after, id))
  {
    if ids != [] {
      var n := |ids| - 1;
      WantedIs(ids[..n], after, chats);
      var w := Wanted(ids[..n], after, chats);
      forall i | 0 <= i < |w| ensures LessId(w[i], ids[n]) {
        assert w[i] in w;
      }
      assert ids == ids[..n] + [ids[n]];
    }
  }

  /** Continuing after an entry of the list continues exactly behind it. */
  lemma {:induction false} WantedAfter(ids: seq<Id>, after: Id, chats: map<Id, Chat>, j: nat)
    requires Ascending(ids) && "" !in ids && j < |Wanted(ids, after, chats)|
    ensures Wanted(ids, Wanted(ids, after, chats)[j], chats) == Wanted(ids, after, chats)[j + 1..]
  {
    hide LessId;
    var w := Wanted(ids, after, chats);
    var n := |ids| - 1;
    var v := Wanted(ids[..n], after, chats);
    if j < |v| {
      WantedAfter(ids[..n], after, chats, j);
      assert v[j] == w[j];
      WantedIs(ids[..n], after, chats);
      assert v[j] in v && v[j] in ids[..n] && v[j] in ids;
      hide Ascending;
      if after != "" && LessId(v[j], ids[n]) {
        LessIdChains(after, v[j], ids[n]);
      }
    } else {
      assert w[j] == ids[n] && ids[n] in ids;
      NoneBehind(ids, w[j], chats);
    }
  }

  lemma {:induction false} NoneBehind(ids: seq<Id>, last: Id, chats: map<Id, Chat>)
    requires Ascending(ids) && ids != [] && last == ids[|ids| - 1] && last != ""
    ensures Wanted(ids, last, chats) == []
  {
    WantedIs(ids, last, chats);
    var w := Wanted(ids, last, chats);
    if w != [] {
      assert w[0] in w;
      var i :| 0 <= i < |ids| && ids[i] == w[0];
      BeforeIsTotal(ids[i], last);
    }
  }

  /** A client that asks again after the last id until a page comes back empty. */
  function Walk(ids: seq<Id>, after: Id, chats: map<Id, Chat>, limit: nat): seq<Id>
    requires Ascending(ids) && "" !in ids && limit > 0
    decreases |Wanted(ids, after, chats)|
  {
    var page := Page(ids, after, chats, limit);
    if page == [] then []
    else
      WantedAfter(ids, after, chats, |page| - 1);
      page + Walk(ids, page[|page| - 1], chats, limit)
  }

  lemma {:induction false} WalkFrom(ids: seq<Id>, after: Id, chats: map<Id, Chat>, limit: nat)
    requires Ascending(ids) && "" !in ids && limit > 0
    ensures Walk(ids, after, chats, limit) == Wanted(ids, after, chats)
    decreases |Wanted(ids, after, chats)|
  {
    hide Wanted, Ascending;
    var page := Page(ids, after, chats, limit);
    if page != [] {
      WantedAfter(ids, after, chats, |page| - 1);
      WalkFrom(ids, page[|page| - 1], chats, limit);
    }
  }

  /**
   Walking by last id, in pages of any size, lists every chat of the user that still
   exists, once, in numeric order.
   */
  lemma WalkListsEveryChat(ids: seq<Id>, chats: map<Id, Chat>, limit: nat)
    requires Distinct(ids) && limit > 0 && forall id :: id in ids ==> Canonical(id)
    ensures Ascending(Sort(ids)) && "" !in Sort(ids)
    ensures
      var all := Walk(Sort(ids), "", chats, limit);
      && (forall id :: id in all <==> id in ids && id in chats)
      && (forall i :: 0 <= i < |all| ==> Canonical(all[i]))
      && (forall i, j :: 0 <= i < j < |all| ==> Value(all[i]) < Value(all[j]))
  {
    SortSorts(ids);
    WalkFrom(Sort(ids), "", chats, limit);
    WantedIs(Sort(ids), "", chats);
    var all := Walk(Sort(ids), "", chats, limit);
    forall i | 0 <= i < |all| ensures Canonical(all[i]) {
      assert all[i] in all;
    }
    forall i, j | 0 <= i < j < |all| ensures Value(all[i]) < Value(all[j]) {
      LessIdIsNumeric(all[i], all[j]);
    }
  }
}
