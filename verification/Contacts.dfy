/**
 Contact sync: an owner's address book read in pages by a millisecond cursor.
 */
module Contacts {
  import opened Wrappers

  type User = nat

  const SYNC_PAGE_SIZE: nat := 500

  datatype Contact = Contact(user: User, name: string, blocked: bool, createdAt: int, stamp: int)

  type Book = map<User, Contact>

  ghost predicate Valid(book: Book) { forall u :: u in book ==> book[u].user == u }

  predicate Sorted(rows: seq<Contact>) { forall i, j :: 0 <= i < j < |rows| ==> rows[i].stamp <= rows[j].stamp }

  predicate DistinctUsers(rows: seq<Contact>) { forall i, j :: 0 <= i < j < |rows| ==> rows[i].user != rows[j].user }

  predicate InBook(c: Contact, book: Book) { c.user in book && book[c.user] == c }

  /**
   What the store may answer: rows stamped after `since`, oldest first, ties in any
   order, cut off at `limit`.
   */
  ghost predicate Lists(rows: seq<Contact>, book: Book, since: int, limit: nat) {
    && |rows| <= limit && Sorted(rows) && DistinctUsers(rows)
    && (forall i :: 0 <= i < |rows| ==> InBook(rows[i], book) && rows[i].stamp > since)
    && (forall u :: u in book && book[u].stamp > since ==>
          book[u] in rows || (|rows| == limit && forall i :: 0 <= i < |rows| ==> rows[i].stamp <= book[u].stamp))
  }

  /** More than a page of rows share the first millisecond. */
  predicate Crowded(rows: seq<Contact>) {
    |rows| > SYNC_PAGE_SIZE && rows[0].stamp == rows[SYNC_PAGE_SIZE].stamp
  }

  /** A page that ends between two milliseconds, or is full of a single one. */
  ghost predicate IsPage(rows: seq<Contact>, since: int, page: seq<Contact>, cursor: int) {
    && page <= rows && |page| <= SYNC_PAGE_SIZE
    && (if page == [] then rows == [] && cursor == since else cursor == page[|page| - 1].stamp)
    && (Crowded(rows) ==> |page| == SYNC_PAGE_SIZE)
    && (!Crowded(rows) && page != rows ==> cursor < rows[|page|].stamp)
  }

  method Sync(rows: seq<Contact>, since: int) returns (page: seq<Contact>, cursor: int)
    requires |rows| <= SYNC_PAGE_SIZE + 1 && Sorted(rows)
    requires forall i :: 0 <= i < |rows| ==> rows[i].stamp > since
    ensures IsPage(rows, since, page, cursor)
  {
    if |rows| <= SYNC_PAGE_SIZE {
      cursor := since;
      for i := 0 to |rows|
        invariant cursor == if i == 0 then since else rows[i - 1].stamp
      {
        if rows[i].stamp > cursor {
          cursor := rows[i].stamp;
        }
      }
      return rows, cursor;
    }
    var boundary := rows[SYNC_PAGE_SIZE].stamp;
    page := rows[..SYNC_PAGE_SIZE];
    while |page| > 0 && page[|page| - 1].stamp == boundary
      invariant page <= rows && |page| <= SYNC_PAGE_SIZE
      invariant rows[|page|].stamp == boundary
    {
      page := page[..|page| - 1];
    }
    if |page| == 0 {
      return rows[..SYNC_PAGE_SIZE], boundary;
    }
    cursor := page[|page| - 1].stamp;
  }

  // --- one page ---

  function At(book: Book, t: int): set<User> { set u | u in book && book[u].stamp == t }

  function Above(book: Book, t: int): set<User> { set u | u in book && book[u].stamp > t }

  function Users(rows: seq<Contact>): set<User> { set i | 0 <= i < |rows| :: rows[i].user }

  lemma {:induction false} UsersCount(rows: seq<Contact>)
    ensures |Users(rows)| <= |rows|
    ensures DistinctUsers(rows) ==> |Users(rows)| == |rows|
  {
    if rows != [] {
      var n := |rows| - 1;
      UsersCount(rows[..n]);
      assert Users(rows) == Users(rows[..n]) + {rows[n].user};
      if DistinctUsers(rows) {
        assert rows[n].user !in Users(rows[..n]);
      }
    }
  }

  lemma {:induction false} SubsetCount(a: set<User>, b: set<User>)
    requires a <= b
    ensures |a| <= |b|
  {
    if a != {} {
      var x :| x in a;
      SubsetCount(a - {x}, b - {x});
    }
  }

  /** Only a millisecond with more rows than a page holds crowds one. */
  lemma CrowdedIsOverfull(rows: seq<Contact>, book: Book, since: int)
    requires Lists(rows, book, since, SYNC_PAGE_SIZE + 1) && Crowded(rows)
    ensures |At(book, rows[0].stamp)| > SYNC_PAGE_SIZE
  {
    UsersCount(rows);
    assert Users(rows) <= At(book, rows[0].stamp);
    SubsetCount(Users(rows), At(book, rows[0].stamp));
  }

  /** The page is exactly the rows between the old cursor and the new one. */
  ghost predicate Complete(book: Book, since: int, page: seq<Contact>, cursor: int) {
    forall u :: u in book && book[u].stamp > since ==> (book[u] in page <==> book[u].stamp <= cursor)
  }

  lemma PageIsComplete(rows: seq<Contact>, book: Book, since: int, page: seq<Contact>, cursor: int)
    requires Lists(rows, book, since, SYNC_PAGE_SIZE + 1) && IsPage(rows, since, page, cursor) && !Crowded(rows)
    ensures Complete(book, since, page, cursor)
  {
    forall u | u in book && book[u].stamp > since
      ensures book[u] in page <==> book[u].stamp <= cursor
    {
      if book[u] in page {
        var i :| 0 <= i < |page| && page[i] == book[u];
        assert rows[i].stamp <= rows[|page| - 1].stamp;
      } else if book[u] in rows {
        var rest := rows[|page|..];
        assert rows == page + rest;
        var k :| 0 <= k < |rest| && rest[k] == book[u];
        assert rows[|page|].stamp <= rows[|page| + k].stamp;
      } else {
        assert |page| < |rows|;
        assert rows[|page|].stamp <= book[u].stamp;
      }
    }
  }

  /** Whatever is crowded: nothing at or below the cursor, nothing beyond the new one. */
  lemma PageIsBetween(rows: seq<Contact>, book: Book, since: int, page: seq<Contact>, cursor: int)
    requires Lists(rows, book, since, SYNC_PAGE_SIZE + 1) && IsPage(rows, since, page, cursor)
    ensures since <= cursor && (page != [] <==> since < cursor)
    ensures DistinctUsers(page)
    ensures forall i :: 0 <= i < |page| ==> InBook(page[i], book) && since < page[i].stamp <= cursor
    ensures page == [] ==> Above(book, since) == {}
  {
    forall i | 0 <= i < |page| ensures InBook(page[i], book) && since < page[i].stamp <= cursor {
      assert page[i] == rows[i];
      assert page[|page| - 1] == rows[|page| - 1];
    }
    assert page == rows[..|page|];
  }

  // --- walks of a book that does not change ---

  datatype Visit = Visit(rows: seq<Contact>, page: seq<Contact>, cursor: int)

  ghost function CursorAt(from: int, visits: seq<Visit>, i: nat): int
    requires i <= |visits|
  {
    if i == 0 then from else visits[i - 1].cursor
  }

  ghost predicate IsVisit(book: Book, since: int, v: Visit) {
    Lists(v.rows, book, since, SYNC_PAGE_SIZE + 1) && IsPage(v.rows, since, v.page, v.cursor)
  }

  /** A client asking again with the cursor it was given. */
  ghost predicate IsWalk(book: Book, from: int, visits: seq<Visit>) {
    forall i :: 0 <= i < |visits| ==> IsVisit(book, CursorAt(from, visits, i), visits[i])
  }

  lemma VisitOf(book: Book, from: int, visits: seq<Visit>, i: nat)
    requires IsWalk(book, from, visits) && i < |visits|
    ensures
      var since, v := CursorAt(from, visits, i), visits[i];
      && since <= v.cursor && (v.page != [] <==> since < v.cursor) && DistinctUsers(v.page)
      && |v.page| <= SYNC_PAGE_SIZE
      && (forall j :: 0 <= j < |v.page| ==> InBook(v.page[j], book) && since < v.page[j].stamp <= v.cursor)
      && (v.page == [] ==> Above(book, since) == {})
  {
    assert IsVisit(book, CursorAt(from, visits, i), visits[i]);
    PageIsBetween(visits[i].rows, book, CursorAt(from, visits, i), visits[i].page, visits[i].cursor);
  }

  lemma {:induction false} CursorsRise(book: Book, from: int, visits: seq<Visit>, i: nat, j: nat)
    requires IsWalk(book, from, visits) && i <= j <= |visits|
    ensures CursorAt(from, visits, i) <= CursorAt(from, visits, j)
  {
    hide IsWalk;
    if i < j {
      CursorsRise(book, from, visits, i, j - 1);
      VisitOf(book, from, visits, j - 1);
    }
  }

  /** No row is delivered twice, crowded or not. */
  lemma DeliveredOnce(book: Book, from: int, visits: seq<Visit>, i: nat, a: nat, j: nat, b: nat)
    requires IsWalk(book, from, visits)
    requires i < |visits| && a < |visits[i].page| && j < |visits| && b < |visits[j].page|
    requires visits[i].page[a].user == visits[j].page[b].user
    ensures i == j && a == b
  {
    hide IsWalk;
    VisitOf(book, from, visits, i);
    VisitOf(book, from, visits, j);
    if i < j {
      CursorsRise(book, from, visits, i + 1, j);
    } else if j < i {
      CursorsRise(book, from, visits, j + 1, i);
    }
  }

  ghost predicate Delivered(visits: seq<Visit>, c: Contact) {
    exists i :: 0 <= i < |visits| && c in visits[i].page
  }

  ghost predicate NoMillisecondOverfull(book: Book, from: int) {
    forall t :: t > from ==> |At(book, t)| <= SYNC_PAGE_SIZE
  }

  /** A walk whose last answer was empty. */
  ghost predicate Ended(visits: seq<Visit>) { visits != [] && visits[|visits| - 1].page == [] }

  lemma {:induction false} DeliveredUpTo(book: Book, from: int, visits: seq<Visit>, n: nat, u: User)
    requires IsWalk(book, from, visits) && NoMillisecondOverfull(book, from) && n <= |visits|
    requires u in book && from < book[u].stamp <= CursorAt(from, visits, n)
    ensures Delivered(visits, book[u])
  {
    hide IsVisit, NoMillisecondOverfull;
    if book[u].stamp <= CursorAt(from, visits, n - 1) {
      DeliveredUpTo(book, from, visits, n - 1, u);
    } else {
      assert IsVisit(book, CursorAt(from, visits, n - 1), visits[n - 1]);
      CursorsRise(book, from, visits, 0, n - 1);
      VisitDelivers(book, from, CursorAt(from, visits, n - 1), visits[n - 1], u);
    }
  }

  lemma VisitDelivers(book: Book, from: int, since: int, v: Visit, u: User)
    requires IsVisit(book, since, v) && from <= since && NoMillisecondOverfull(book, from)
    requires u in book && since < book[u].stamp <= v.cursor
    ensures book[u] in v.page
  {
    if Crowded(v.rows) {
      CrowdedIsOverfull(v.rows, book, since);
    } else {
      hide Lists, IsPage;
      PageIsComplete(v.rows, book, since, v.page, v.cursor);
    }
  }

  /** All rows of one millisecond that a walk delivers come in one page. */
  lemma OnePagePerMillisecond(book: Book, from: int, visits: seq<Visit>, t: int, u: User, w: User)
    requires IsWalk(book, from, visits)
    requires u in book && book[u].stamp == t && Delivered(visits, book[u])
    requires w in book && book[w].stamp == t && Delivered(visits, book[w])
    ensures exists i :: 0 <= i < |visits| && book[u] in visits[i].page && book[w] in visits[i].page
  {
    var i :| 0 <= i < |visits| && book[u] in visits[i].page;
    var j :| 0 <= j < |visits| && book[w] in visits[j].page;
    SameMillisecondSamePage(book, from, visits, i, book[u], j, book[w]);
  }

  lemma SameMillisecondSamePage(book: Book, from: int, visits: seq<Visit>, i: nat, x: Contact, j: nat, y: Contact)
    requires IsWalk(book, from, visits) && i < |visits| && j < |visits|
    requires x in visits[i].page && y in visits[j].page && x.stamp == y.stamp
    ensures i == j
  {
    hide IsWalk;
    HeldBetween(book, from, visits, i, x);
    HeldBetween(book, from, visits, j, y);
    if i < j {
      CursorsRise(book, from, visits, i + 1, j);
    } else if j < i {
      CursorsRise(book, from, visits, j + 1, i);
    }
  }

  lemma HeldBetween(book: Book, from: int, visits: seq<Visit>, i: nat, c: Contact)
    requires IsWalk(book, from, visits) && i < |visits| && c in visits[i].page
    ensures CursorAt(from, visits, i) < c.stamp <= visits[i].cursor
  {
    hide IsWalk;
    VisitOf(book, from, visits, i);
  }

  lemma OverfullIsNotDelivered(book: Book, from: int, visits: seq<Visit>, t: int)
    requires Valid(book) && IsWalk(book, from, visits) && t > from && |At(book, t)| > SYNC_PAGE_SIZE
    ensures exists u :: u in book && book[u].stamp == t && !Delivered(visits, book[u])
  {
    if forall u :: u in book && book[u].stamp == t ==> Delivered(visits, book[u]) {
      var w :| w in At(book, t);
      var i :| 0 <= i < |visits| && book[w] in visits[i].page;
      VisitOf(book, from, visits, i);
      forall u | u in At(book, t) ensures u in Users(visits[i].page) {
        OnePagePerMillisecond(book, from, visits, t, u, w);
        var j :| 0 <= j < |visits| && book[u] in visits[j].page && book[w] in visits[j].page;
        SamePage(book, from, visits, w, i, j);
        var a :| 0 <= a < |visits[i].page| && visits[i].page[a] == book[u];
        assert visits[i].page[a].user == u;
      }
      UsersCount(visits[i].page);
      SubsetCount(At(book, t), Users(visits[i].page));
    }
  }

  lemma SamePage(book: Book, from: int, visits: seq<Visit>, w: User, i: nat, j: nat)
    requires IsWalk(book, from, visits) && i < |visits| && j < |visits| && w in book
    requires book[w] in visits[i].page && book[w] in visits[j].page
    ensures i == j
  {
    var a :| 0 <= a < |visits[i].page| && visits[i].page[a] == book[w];
    var b :| 0 <= b < |visits[j].page| && visits[j].page[b] == book[w];
    DeliveredOnce(book, from, visits, i, a, j, b);
  }

  /**
   A walk that has ended delivered every row stamped after its start, and each once,
   if and only if no millisecond after the start holds more rows than a page.
   */
  lemma WalkDeliversAllExactlyWhen(book: Book, from: int, visits: seq<Visit>)
    requires Valid(book) && IsWalk(book, from, visits) && Ended(visits)
    ensures
      (forall u :: u in book && book[u].stamp > from ==> Delivered(visits, book[u]))
      <==> NoMillisecondOverfull(book, from)
  {
    if NoMillisecondOverfull(book, from) {
      var n := |visits| - 1;
      VisitOf(book, from, visits, n);
      forall u | u in book && book[u].stamp > from ensures Delivered(visits, book[u]) {
        assert u !in Above(book, CursorAt(from, visits, n));
        DeliveredUpTo(book, from, visits, n, u);
      }
    } else {
      var t :| t > from && |At(book, t)| > SYNC_PAGE_SIZE;
      OverfullIsNotDelivered(book, from, visits, t);
    }
  }

  /** The rows above the cursor run out: no walk has more full answers than rows. */
  lemma {:induction false} WalkEnds(book: Book, from: int, visits: seq<Visit>)
    requires IsWalk(book, from, visits)
    requires forall i :: 0 <= i < |visits| ==> visits[i].page != []
    ensures |visits| + |Above(book, CursorAt(from, visits, |visits|))| <= |Above(book, from)|
  {
    hide IsWalk, Above;
    if visits != [] {
      var n := |visits| - 1;
      WalkBefore(book, from, visits);
      WalkEnds(book, from, visits[..n]);
      assert CursorAt(from, visits[..n], n) == CursorAt(from, visits, n);
      VisitShrinks(book, from, visits, n);
    }
  }

  lemma WalkBefore(book: Book, from: int, visits: seq<Visit>)
    requires visits != [] && IsWalk(book, from, visits)
    ensures IsWalk(book, from, visits[..|visits| - 1])
  {
    hide IsVisit;
    var before := visits[..|visits| - 1];
    forall i | 0 <= i < |before| ensures IsVisit(book, CursorAt(from, before, i), before[i]) {
      assert CursorAt(from, before, i) == CursorAt(from, visits, i);
      assert IsVisit(book, CursorAt(from, visits, i), visits[i]);
    }
  }

  lemma VisitShrinks(book: Book, from: int, visits: seq<Visit>, n: nat)
    requires IsWalk(book, from, visits) && n < |visits| && visits[n].page != []
    ensures |Above(book, visits[n].cursor)| < |Above(book, CursorAt(from, visits, n))|
  {
    hide IsWalk;
    VisitOf(book, from, visits, n);
    var since, c := CursorAt(from, visits, n), visits[n].page[0];
    assert c.user in Above(book, since);
    SubsetCount(Above(book, visits[n].cursor), Above(book, since) - {c.user});
  }

  // --- a client beside a changing book ---

  datatype State = State(book: Book, cursor: int, client: Book)

  datatype Step =
    | Add(u: User, name: string, now: int)
    | Block(u: User, on: bool, now: int)
    | Remove(u: User)
    | Pull(v: Visit)

  /** Writes are stamped after the cursor the client holds; milliseconds fit a page. */
  ghost predicate Allowed(s: State, step: Step) {
    match step
    case Add(_, _, now) => now > s.cursor
    case Block(_, _, now) => now > s.cursor
    case Remove(_) => true
    case Pull(v) => IsVisit(s.book, s.cursor, v) && !Crowded(v.rows)
  }

  /** The client files each row it is sent. */
  function Filed(client: Book, page: seq<Contact>): Book {
    if page == [] then client
    else
      var c := page[|page| - 1];
      Filed(client, page[..|page| - 1])[c.user := c]
  }

  function Apply(s: State, step: Step): State {
    match step
    case Add(u, name, now) =>
      var c := if u in s.book then Contact(u, name, s.book[u].blocked, s.book[u].createdAt, now)
               else Contact(u, name, false, now, now);
      s.(book := s.book[u := c])
    case Block(u, on, now) =>
      var c := if u in s.book then s.book[u].(blocked := on, stamp := now) else Contact(u, "", on, now, now);
      s.(book := s.book[u := c])
    case Remove(u) =>
      // A blocked contact keeps a nameless row, which is written without a stamp.
      if u in s.book && s.book[u].blocked then s.(book := s.book[u := s.book[u].(name := "", stamp := 0)])
      else s.(book := s.book - {u})
    case Pull(v) => s.(cursor := v.cursor, client := Filed(s.client, v.page))
  }

  function Run(steps: seq<Step>): State {
    if steps == [] then State(map[], 0, map[]) else Apply(Run(steps[..|steps| - 1]), steps[|steps| - 1])
  }

  ghost predicate IsRun(steps: seq<Step>) {
    steps == [] || (IsRun(steps[..|steps| - 1]) && Allowed(Run(steps[..|steps| - 1]), steps[|steps| - 1]))
  }

  // --- what the book says ---

  /** The last step that named the contact or removed it. */
  function LastNamed(steps: seq<Step>, u: User): Option<Step> {
    if steps == [] then None
    else
      var step := steps[|steps| - 1];
      if (step.Add? || step.Remove?) && step.u == u then Some(step) else LastNamed(steps[..|steps| - 1], u)
  }

  /** What the contact was last set to: blocked or not. */
  function LastBlocked(steps: seq<Step>, u: User): bool {
    steps != [] &&
    var step := steps[|steps| - 1];
    if step.Block? && step.u == u then step.on else LastBlocked(steps[..|steps| - 1], u)
  }

  /** When the row was last written, or 0 if that was a removal. */
  function LastWritten(steps: seq<Step>, u: User): int {
    if steps == [] then 0
    else
      match steps[|steps| - 1]
      case Add(w, _, now) => if w == u then now else LastWritten(steps[..|steps| - 1], u)
      case Block(w, _, now) => if w == u then now else LastWritten(steps[..|steps| - 1], u)
      case Remove(w) => if w == u then 0 else LastWritten(steps[..|steps| - 1], u)
      case Pull(_) => LastWritten(steps[..|steps| - 1], u)
  }

  /** The contact's row, or its absence, is what these writes left. */
  ghost predicate Reads(book: Book, u: User, named: Option<Step>, blocked: bool, written: int) {
    var name := if named.Some? && named.value.Add? then named.value.name else "";
    && (u in book ==> book[u].name == name && book[u].blocked == blocked && book[u].stamp == written)
    && ((named.Some? && named.value.Add?) || blocked ==> u in book)
  }

  lemma StepIsRead(s: State, step: Step, u: User, named: Option<Step>, blocked: bool, written: int)
    requires Reads(s.book, u, named, blocked, written)
    ensures
      var mine := !step.Pull? && step.u == u;
      Reads(Apply(s, step).book, u, if mine && !step.Block? then Some(step) else named,
            if mine && step.Block? then step.on else blocked,
            if !mine then written else if step.Remove? then 0 else step.now)
  {
  }

  /**
   In every run the book says what was last written: a contact has the name it was last
   added under, none if it was removed since, and is blocked exactly if it was last set
   so, which a removal does not undo. Whoever was added or is blocked has a row.
   */
  lemma {:induction false} BookSaysWhatWasWritten(steps: seq<Step>, u: User)
    ensures Reads(Run(steps).book, u, LastNamed(steps, u), LastBlocked(steps, u), LastWritten(steps, u))
  {
    if steps != [] {
      var n := |steps| - 1;
      BookSaysWhatWasWritten(steps[..n], u);
      StepIsRead(Run(steps[..n]), steps[n], u, LastNamed(steps[..n], u), LastBlocked(steps[..n], u),
                 LastWritten(steps[..n], u));
      hide Apply, Reads;
    }
  }

  // --- the client's copy ---

  /** The client holds every row up to its cursor as the book has it. */
  ghost predicate UpToDate(s: State) {
    && Valid(s.book) && s.cursor >= 0
    && forall u :: u in s.book && 0 < s.book[u].stamp <= s.cursor ==> u in s.client && s.client[u] == s.book[u]
  }

  lemma {:induction false} FiledHas(client: Book, page: seq<Contact>, u: User)
    requires DistinctUsers(page)
    ensures forall i ::
      0 <= i < |page| && page[i].user == u ==> u in Filed(client, page) && Filed(client, page)[u] == page[i]
    ensures u !in Users(page) ==> (u in Filed(client, page) <==> u in client)
    ensures u !in Users(page) && u in client ==> Filed(client, page)[u] == client[u]
  {
    if page != [] {
      var n := |page| - 1;
      FiledHas(client, page[..n], u);
      assert Users(page) == Users(page[..n]) + {page[n].user};
      assert forall i :: 0 <= i < n ==> page[..n][i] == page[i];
    }
  }

  lemma PullKeepsUpToDate(s: State, v: Visit)
    requires UpToDate(s) && Allowed(s, Pull(v))
    ensures UpToDate(Apply(s, Pull(v)))
    ensures v.page == [] ==> forall u :: u in s.book ==> s.book[u].stamp <= s.cursor
  {
    hide IsPage, Lists;
    PageIsBetween(v.rows, s.book, s.cursor, v.page, v.cursor);
    PageIsComplete(v.rows, s.book, s.cursor, v.page, v.cursor);
    var client := Filed(s.client, v.page);
    forall u | u in s.book && 0 < s.book[u].stamp <= v.cursor
      ensures u in client && client[u] == s.book[u]
    {
      FiledHas(s.client, v.page, u);
      if s.book[u].stamp > s.cursor {
        var i :| 0 <= i < |v.page| && v.page[i] == s.book[u];
      } else {
        assert u !in Users(v.page);
      }
    }
    if v.page == [] {
      forall u | u in s.book ensures s.book[u].stamp <= s.cursor {
        assert u !in Above(s.book, s.cursor);
      }
    }
  }

  lemma StepKeepsUpToDate(s: State, step: Step)
    requires UpToDate(s) && Allowed(s, step)
    ensures UpToDate(Apply(s, step))
  {
    if step.Pull? {
      PullKeepsUpToDate(s, step.v);
    }
  }

  /** In every run the client's copy is right up to its cursor. */
  lemma {:induction false} ClientIsUpToDate(steps: seq<Step>)
    requires IsRun(steps)
    ensures UpToDate(Run(steps))
  {
    if steps != [] {
      ClientIsUpToDate(steps[..|steps| - 1]);
      StepKeepsUpToDate(Run(steps[..|steps| - 1]), steps[|steps| - 1]);
    }
  }

  /**
   After any run of adds, blocks, removals and pulls, an empty answer means the client
   holds every stamped row of the book as it is now: no write was missed.
   */
  lemma EmptyAnswerMeansCaughtUp(steps: seq<Step>, v: Visit)
    requires IsRun(steps) && Allowed(Run(steps), Pull(v)) && v.page == []
    ensures
      var s := Run(steps);
      forall u :: u in s.book && s.book[u].stamp > 0 ==> u in s.client && s.client[u] == s.book[u]
  {
    ClientIsUpToDate(steps);
    PullKeepsUpToDate(Run(steps), v);
  }

  ghost function FiledAll(client: Book, visits: seq<Visit>): Book {
    if visits == [] then client else Filed(FiledAll(client, visits[..|visits| - 1]), visits[|visits| - 1].page)
  }

  lemma {:induction false} NotSent(book: Book, from: int, client: Book, visits: seq<Visit>, u: User)
    requires Valid(book) && IsWalk(book, from, visits)
    requires u in book && book[u].stamp <= from
    ensures u in FiledAll(client, visits) <==> u in client
    ensures u in client ==> FiledAll(client, visits)[u] == client[u]
  {
    if visits != [] {
      var n := |visits| - 1;
      WalkBefore(book, from, visits);
      NotSent(book, from, client, visits[..n], u);
      VisitOf(book, from, visits, n);
      CursorsRise(book, from, visits, 0, n);
      FiledHas(FiledAll(client, visits[..n]), visits[n].page, u);
    }
  }

  /**
   A row the client does not already hold is never sent, by any number of pulls, when
   it was stamped at or before the cursor: a write in the same millisecond as the last
   row sent, or the nameless row a removal leaves, whose stamp is 0.
   */
  lemma LateRowIsNeverSent(book: Book, from: int, client: Book, visits: seq<Visit>, u: User)
    requires Valid(book) && IsWalk(book, from, visits)
    requires u in book && book[u].stamp <= from && (u !in client || client[u] != book[u])
    ensures
      var after := FiledAll(client, visits);
      u !in after || after[u] != book[u]
  {
    NotSent(book, from, client, visits, u);
  }

  // --- a removal, concretely ---

  /** The run: a contact is added, blocked and synced, and then removed. */
  const ROW: Contact := Contact(7, "Bob", true, 1, 2)

  const REMOVAL: seq<Step> := [Add(7, "Bob", 1), Block(7, true, 2), Pull(Visit([ROW], [ROW], 2)), Remove(7)]

  lemma Snoc(steps: seq<Step>, i: nat)
    requires i < |steps|
    ensures Run(steps[..i + 1]) == Apply(Run(steps[..i]), steps[i])
    ensures IsRun(steps[..i + 1]) <==> IsRun(steps[..i]) && Allowed(Run(steps[..i]), steps[i])
  {
    assert steps[..i + 1][..i] == steps[..i];
  }

  lemma RemovalRuns()
    ensures
      && IsRun(REMOVAL)
      && Run(REMOVAL) == State(map[7 := Contact(7, "", true, 1, 0)], 2, map[7 := ROW])
  {
    var r := REMOVAL;
    assert r[..0] == [] && r[..4] == r;
    Snoc(r, 0);
    Snoc(r, 1);
    var s2 := State(map[7 := ROW], 0, map[]);
    assert Run(r[..2]) == s2;
    hide Run, IsRun;
    Snoc(r, 2);
    Snoc(r, 3);
    assert IsVisit(s2.book, 0, Visit([ROW], [ROW], 2));
    assert [ROW][..0] == [];
    assert Filed(map[], [ROW]) == map[7 := ROW];
  }

  /** The client keeps the name for good: no number of pulls brings the nameless row. */
  lemma RemovedNameIsKept(visits: seq<Visit>)
    requires IsWalk(Run(REMOVAL).book, Run(REMOVAL).cursor, visits)
    ensures
      var s := Run(REMOVAL);
      && 7 in s.book && s.book[7].name == ""
      && var after := FiledAll(s.client, visits);
         7 in after && after[7].name == "Bob"
  {
    RemovalRuns();
    var s := Run(REMOVAL);
    hide Run, IsRun;
    NotSent(s.book, s.cursor, s.client, visits, 7);
  }
}
