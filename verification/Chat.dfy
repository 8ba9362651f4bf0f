/**
 Chat rooms: the message queries with their two cursors, what a client sees
 that pages back or polls while the room changes, and the operations that
 change it.
 */
module Chat {
  import opened Wrappers
  import opened Texts
  import opened Sequences

  const PAGE_SIZE: nat := 40

  datatype Message = Message(id: int, room: string, authorName: string, author: string, body: string, deleted: bool, edited: bool)

  /** The table in id order. */
  type Table = seq<Message>

  predicate Ascending(t: seq<Message>) {
    forall i, j :: 0 <= i < j < |t| ==> t[i].id < t[j].id
  }

  predicate TableOk(t: Table) {
    Ascending(t) && forall i :: 0 <= i < |t| ==> t[i].id >= 1
  }

  // ------------------------------------------------------------------- queries

  datatype Bound = Above(cursor: int) | Below(cursor: int) | Unbounded

  predicate Within(m: Message, b: Bound) {
    match b
    case Above(c) => m.id > c
    case Below(c) => m.id < c
    case Unbounded => true
  }

  predicate Shown(m: Message, room: string, withDeleted: bool, b: Bound) {
    m.room == room && (withDeleted || !m.deleted) && Within(m, b)
  }

  /** WHERE, ORDER BY id ASC. */
  function Select(t: Table, room: string, withDeleted: bool, b: Bound): seq<Message> {
    if t == [] then []
    else (if Shown(t[0], room, withDeleted, b) then [t[0]] else []) + Select(t[1..], room, withDeleted, b)
  }

  function Reverse(s: seq<Message>): seq<Message> {
    if s == [] then [] else Reverse(s[1..]) + [s[0]]
  }

  function Limit(s: seq<Message>, limit: nat): seq<Message> {
    if |s| <= limit then s else s[..limit]
  }

  /** list_message_rows: a positive after wins over before. */
  function ListMessageRows(t: Table, room: string, before: int, after: int, limit: nat, withDeleted: bool): seq<Message> {
    if after > 0 then Limit(Select(t, room, withDeleted, Above(after)), limit)
    else if before > 0 then Limit(Reverse(Select(t, room, withDeleted, Below(before))), limit)
    else Limit(Reverse(Select(t, room, withDeleted, Unbounded)), limit)
  }

  /** list_messages: newest-first rows are turned round. */
  function ListMessages(t: Table, room: string, before: int, after: int): seq<Message> {
    var rows := ListMessageRows(t, room, before, after, PAGE_SIZE, false);
    if after <= 0 then Reverse(rows) else rows
  }

  predicate Visible(t: Table, room: string, x: int) {
    exists m :: m in t && m.id == x && m.room == room && !m.deleted
  }

  predicate Holds(s: seq<Message>, x: int) {
    exists m :: m in s && m.id == x
  }

  lemma {:induction false} SelectHas(t: Table, room: string, withDeleted: bool, b: Bound)
    ensures forall m :: m in Select(t, room, withDeleted, b) <==> m in t && Shown(m, room, withDeleted, b)
  {
    if t != [] {
      assert t == [t[0]] + t[1..];
      SelectHas(t[1..], room, withDeleted, b);
    }
  }

  lemma {:induction false} SelectOk(t: Table, room: string, withDeleted: bool, b: Bound)
    requires Ascending(t)
    ensures Ascending(Select(t, room, withDeleted, b))
    ensures forall m :: m in Select(t, room, withDeleted, b) <==> m in t && Shown(m, room, withDeleted, b)
  {
    SelectHas(t, room, withDeleted, b);
    if t != [] {
      SelectOk(t[1..], room, withDeleted, b);
      var rest := Select(t[1..], room, withDeleted, b);
      forall k | 0 <= k < |rest|
        ensures t[0].id < rest[k].id
      {
        assert rest[k] in t[1..];
      }
    }
  }

  lemma {:induction false} ReverseAt(s: seq<Message>)
    ensures |Reverse(s)| == |s|
    ensures forall k :: 0 <= k < |s| ==> Reverse(s)[k] == s[|s| - 1 - k]
  {
    if s != [] {
      ReverseAt(s[1..]);
    }
  }

  /** The last rows of an ascending list. */
  function Last(s: seq<Message>, limit: nat): seq<Message> {
    if |s| <= limit then s else s[|s| - limit..]
  }

  lemma NewestTurned(s: seq<Message>, limit: nat)
    ensures Reverse(Limit(Reverse(s), limit)) == Last(s, limit)
  {
    ReverseAt(s);
    ReverseAt(Limit(Reverse(s), limit));
  }

  function BoundOf(before: int, after: int): Bound {
    if after > 0 then Above(after) else if before > 0 then Below(before) else Unbounded
  }

  /**
   Every page is ascending: the first rows after a cursor, or the last rows
   before one, of the room's undeleted messages.
   */
  lemma PageIs(t: Table, room: string, before: int, after: int)
    ensures ListMessages(t, room, before, after)
            == if after > 0 then Limit(Select(t, room, false, Above(after)), PAGE_SIZE)
               else Last(Select(t, room, false, BoundOf(before, after)), PAGE_SIZE)
  {
    NewestTurned(Select(t, room, false, BoundOf(before, after)), PAGE_SIZE);
  }

  lemma PageOk(t: Table, room: string, before: int, after: int)
    requires TableOk(t)
    ensures var page := ListMessages(t, room, before, after);
            && Ascending(page) && |page| <= PAGE_SIZE
            && (forall m :: m in page ==> m in t && Shown(m, room, false, BoundOf(before, after)))
  {
    PageIs(t, room, before, after);
    SelectOk(t, room, false, BoundOf(before, after));
  }

  // --------------------------------------------------------------- paging back

  /**
   A client follows before_id until a page is empty; each page may come from a
   later state of the table.
   */
  function PageBack(tables: seq<Table>, room: string, before: int): seq<Message>
    decreases |tables|
  {
    if tables == [] then []
    else
      var page := ListMessages(tables[0], room, before, 0);
      if page == [] then [] else PageBack(tables[1..], room, page[0].id) + page
  }

  /** The client went on until it received an empty page. */
  predicate ReachedTheStart(tables: seq<Table>, room: string, before: int)
    decreases |tables|
  {
    && tables != []
    && var page := ListMessages(tables[0], room, before, 0);
       page == [] || ReachedTheStart(tables[1..], room, page[0].id)
  }

  predicate TablesOk(tables: seq<Table>) {
    forall k :: 0 <= k < |tables| ==> TableOk(tables[k])
  }

  lemma JoinAscending(a: seq<Message>, b: seq<Message>)
    requires Ascending(a) && Ascending(b) && b != []
    requires forall m :: m in a ==> m.id < b[0].id
    ensures Ascending(a + b)
  {
    forall i, j | 0 <= i < j < |a + b|
      ensures (a + b)[i].id < (a + b)[j].id
    {
      if i < |a| <= j {
        assert a[i] in a;
        assert b[0].id <= b[j - |a|].id;
      }
    }
  }

  /** No message is delivered twice and the whole is in order, whatever happens between the pages. */
  lemma {:induction false} PageBackAscends(tables: seq<Table>, room: string, before: int)
    requires TablesOk(tables)
    ensures Ascending(PageBack(tables, room, before))
    ensures forall m :: m in PageBack(tables, room, before) ==> m.room == room && !m.deleted && (before > 0 ==> m.id < before)
    decreases |tables|
  {
    if tables != [] {
      var page := ListMessages(tables[0], room, before, 0);
      PageOk(tables[0], room, before, 0);
      if page != [] {
        assert page[0] in page;
        PageBackAscends(tables[1..], room, page[0].id);
        JoinAscending(PageBack(tables[1..], room, page[0].id), page);
        forall m | m in page
          ensures before > 0 ==> m.id < before
        {
        }
        forall m | m in PageBack(tables[1..], room, page[0].id)
          ensures before > 0 ==> m.id < before
        {
          assert m.id < page[0].id;
        }
      }
    }
  }

  lemma PageCatches(t: Table, room: string, before: int, x: int)
    requires TableOk(t) && Visible(t, room, x) && (before > 0 ==> x < before)
    ensures var page := ListMessages(t, room, before, 0);
            page != [] && (x < page[0].id || Holds(page, x))
  {
    var all := Select(t, room, false, BoundOf(before, 0));
    SelectOk(t, room, false, BoundOf(before, 0));
    PageIs(t, room, before, 0);
    var m :| m in t && m.id == x && m.room == room && !m.deleted;
    var k :| 0 <= k < |all| && all[k] == m;
    if |all| > PAGE_SIZE && k < |all| - PAGE_SIZE {
      assert ListMessages(t, room, before, 0)[0] == all[|all| - PAGE_SIZE];
    } else {
      assert m in Last(all, PAGE_SIZE);
    }
  }

  /** Every message that stays visible and precedes the first cursor is delivered. */
  lemma {:induction false} PageBackComplete(tables: seq<Table>, room: string, before: int, x: int)
    requires TablesOk(tables) && ReachedTheStart(tables, room, before)
    requires forall k :: 0 <= k < |tables| ==> Visible(tables[k], room, x)
    requires before > 0 ==> x < before
    ensures Holds(PageBack(tables, room, before), x)
    decreases |tables|
  {
    var page := ListMessages(tables[0], room, before, 0);
    PageCatches(tables[0], room, before, x);
    PageOk(tables[0], room, before, 0);
    if Holds(page, x) {
      var m :| m in page && m.id == x;
      assert m in PageBack(tables, room, before);
    } else {
      assert page[0] in page && page[0].id >= 1;
      PageBackComplete(tables[1..], room, page[0].id, x);
      var m :| m in PageBack(tables[1..], room, page[0].id) && m.id == x;
      assert m in PageBack(tables, room, before);
    }
  }

  /** Over a table that does not change, paging back delivers exactly the room's undeleted messages. */
  lemma PageBackIsTheRoom(tables: seq<Table>, t: Table, room: string)
    requires TableOk(t) && ReachedTheStart(tables, room, 0)
    requires forall k :: 0 <= k < |tables| ==> tables[k] == t
    ensures PageBack(tables, room, 0) == Select(t, room, false, Unbounded)
  {
    var seen, all := PageBack(tables, room, 0), Select(t, room, false, Unbounded);
    PageBackAscends(tables, room, 0);
    SelectOk(t, room, false, Unbounded);
    PageBackFromTable(tables, t, room, 0);
    forall m | m in all
      ensures m in seen
    {
      PageBackComplete(tables, room, 0, m.id);
      var n :| n in seen && n.id == m.id;
      SameId(t, m, n);
    }
    SameList(seen, all);
  }

  lemma SameId(t: Table, m: Message, n: Message)
    requires Ascending(t) && m in t && n in t && m.id == n.id
    ensures m == n
  {
  }

  lemma {:induction false} PageBackFromTable(tables: seq<Table>, t: Table, room: string, before: int)
    requires TableOk(t) && forall k :: 0 <= k < |tables| ==> tables[k] == t
    ensures forall m :: m in PageBack(tables, room, before) ==> m in t
    decreases |tables|
  {
    if tables != [] {
      var page := ListMessages(tables[0], room, before, 0);
      PageOk(t, room, before, 0);
      if page != [] {
        PageBackFromTable(tables[1..], t, room, page[0].id);
      }
    }
  }

  /** Two ascending lists of the same messages are the same list. */
  lemma SameList(a: seq<Message>, b: seq<Message>)
    requires Ascending(a) && Ascending(b) && forall m :: m in a <==> m in b
    ensures a == b
  {
    SortedIsUnique(a, b, (m: Message, n: Message) => m.id < n.id);
  }

  // -------------------------------------------------------------------- polling

  function NextCursor(page: seq<Message>, cursor: int): int {
    if page == [] then cursor else page[|page| - 1].id
  }

  /** A client polls with after_id set to the last id that it has seen. */
  function Poll(tables: seq<Table>, room: string, cursor: int): seq<Message>
    decreases |tables|
  {
    if tables == [] then []
    else
      var page := ListMessages(tables[0], room, 0, cursor);
      page + Poll(tables[1..], room, NextCursor(page, cursor))
  }

  function CursorAfter(tables: seq<Table>, room: string, cursor: int): int
    decreases |tables|
  {
    if tables == [] then cursor
    else CursorAfter(tables[1..], room, NextCursor(ListMessages(tables[0], room, 0, cursor), cursor))
  }

  /** The last poll found nothing more. */
  predicate CaughtUp(tables: seq<Table>, room: string, cursor: int)
    decreases |tables|
  {
    && tables != []
    && var page := ListMessages(tables[0], room, 0, cursor);
       if |tables| == 1 then page == [] else CaughtUp(tables[1..], room, NextCursor(page, cursor))
  }

  lemma PollPageOk(t: Table, room: string, cursor: int)
    requires TableOk(t)
    ensures var page := ListMessages(t, room, 0, cursor);
            && Ascending(page) && NextCursor(page, cursor) >= cursor
            && (page != [] ==> NextCursor(page, cursor) > 0)
            && (forall m :: m in page ==>
                  m in t && m.room == room && !m.deleted && m.id <= NextCursor(page, cursor) && m.id > cursor)
  {
    PageOk(t, room, 0, cursor);
    var page := ListMessages(t, room, 0, cursor);
    forall m | m in page
      ensures m.id >= 1
    {
      assert m in t;
    }
    if page != [] {
      assert page[|page| - 1] in page;
    }
  }

  lemma ConcatAscending(a: seq<Message>, b: seq<Message>, mid: int)
    requires Ascending(a) && Ascending(b)
    requires (forall m :: m in a ==> m.id <= mid) && (forall m :: m in b ==> m.id > mid)
    ensures Ascending(a + b)
  {
    forall i, j | 0 <= i < j < |a + b|
      ensures (a + b)[i].id < (a + b)[j].id
    {
      if i < |a| <= j {
        assert a[i] in a && b[j - |a|] in b;
      }
    }
  }

  /** Polling delivers in id order and never twice, whatever happens between the polls. */
  lemma {:induction false} PollAscends(tables: seq<Table>, room: string, cursor: int)
    requires TablesOk(tables)
    ensures Ascending(Poll(tables, room, cursor))
    ensures forall m :: m in Poll(tables, room, cursor) ==> m.id > cursor && m.room == room && !m.deleted
    decreases |tables|
  {
    if tables != [] {
      var page := ListMessages(tables[0], room, 0, cursor);
      PollPageOk(tables[0], room, cursor);
      var next := NextCursor(page, cursor);
      PollAscends(tables[1..], room, next);
      ConcatAscending(page, Poll(tables[1..], room, next), next);
    }
  }

  /**
   Whether the next poll can reach a visible message: with a cursor the message
   lies beyond it; without one, fewer than a page of messages are newer.
   */
  predicate Reaches(t: Table, room: string, cursor: int, x: int) {
    if cursor > 0 then x > cursor else |Select(t, room, false, Above(x))| < PAGE_SIZE
  }

  /** The messages after one of the room's list. */
  lemma AboveIsTail(t: Table, room: string, k: nat)
    requires TableOk(t) && k < |Select(t, room, false, Unbounded)|
    ensures var all := Select(t, room, false, Unbounded); Select(t, room, false, Above(all[k].id)) == all[k + 1..]
  {
    var all := Select(t, room, false, Unbounded);
    var above := Select(t, room, false, Above(all[k].id));
    SelectOk(t, room, false, Unbounded);
    SelectOk(t, room, false, Above(all[k].id));
    forall m | m in above
      ensures m in all[k + 1..]
    {
      assert m in all;
      var i :| 0 <= i < |all| && all[i] == m;
      assert i > k;
    }
    forall m | m in all[k + 1..]
      ensures m in above
    {
      assert m in all;
    }
    SameList(above, all[k + 1..]);
  }

  /** The last rows of an ascending list hold exactly those with fewer than a page after them. */
  lemma LastHolds(all: seq<Message>, k: nat)
    requires Ascending(all) && k < |all|
    ensures var page := Last(all, PAGE_SIZE);
            && page != [] && all[k].id <= page[|page| - 1].id
            && (Holds(page, all[k].id) <==> |all| - k <= PAGE_SIZE)
  {
    SuffixHolds(all, if |all| <= PAGE_SIZE then 0 else |all| - PAGE_SIZE, k);
  }

  /** The end of an ascending list holds exactly what does not stand before it. */
  lemma SuffixHolds(all: seq<Message>, cut: nat, k: nat)
    requires Ascending(all) && k < |all| && cut < |all|
    ensures all[cut..] != [] && all[k].id <= all[cut..][|all| - cut - 1].id
    ensures Holds(all[cut..], all[k].id) <==> cut <= k
  {
    if cut <= k {
      assert all[cut..][k - cut] == all[k];
    } else {
      forall m | m in all[cut..]
        ensures m.id > all[k].id
      {
        var i :| 0 <= i < |all| - cut && all[cut..][i] == m;
        assert all[cut + i] == m;
      }
    }
  }

  lemma FirstPollCatches(t: Table, room: string, cursor: int, x: int)
    requires TableOk(t) && cursor <= 0 && Visible(t, room, x)
    ensures var page := ListMessages(t, room, 0, cursor);
            page != [] && x <= NextCursor(page, cursor) && (Holds(page, x) <==> Reaches(t, room, cursor, x))
  {
    var all := Select(t, room, false, Unbounded);
    SelectOk(t, room, false, Unbounded);
    PageIs(t, room, 0, cursor);
    var m :| m in t && m.id == x && m.room == room && !m.deleted;
    var k :| 0 <= k < |all| && all[k] == m;
    AboveIsTail(t, room, k);
    LastHolds(all, k);
  }

  lemma NextPollCatches(t: Table, room: string, cursor: int, x: int)
    requires TableOk(t) && cursor > 0 && Visible(t, room, x) && x > cursor
    ensures var page := ListMessages(t, room, 0, cursor);
            page != [] && (x > NextCursor(page, cursor) || Holds(page, x))
  {
    var all := Select(t, room, false, Above(cursor));
    SelectOk(t, room, false, Above(cursor));
    PageIs(t, room, 0, cursor);
    var m :| m in t && m.id == x && m.room == room && !m.deleted;
    var k :| 0 <= k < |all| && all[k] == m;
    if k >= PAGE_SIZE {
      assert ListMessages(t, room, 0, cursor)[PAGE_SIZE - 1] == all[PAGE_SIZE - 1];
    } else {
      assert m in Limit(all, PAGE_SIZE);
    }
  }

  lemma {:induction false} PollDelivers(tables: seq<Table>, room: string, cursor: int, x: int)
    requires TablesOk(tables) && CaughtUp(tables, room, cursor)
    requires forall k :: 0 <= k < |tables| ==> Visible(tables[k], room, x)
    ensures Holds(Poll(tables, room, cursor), x) <==> Reaches(tables[0], room, cursor, x)
    decreases |tables|
  {
    var page := ListMessages(tables[0], room, 0, cursor);
    var next := NextCursor(page, cursor);
    var rest := Poll(tables[1..], room, next);
    PollAscends(tables, room, cursor);
    PollPageOk(tables[0], room, cursor);
    HoldsConcat(page, rest, x);
    if cursor <= 0 {
      FirstPollCatches(tables[0], room, cursor, x);
      PollAscends(tables[1..], room, next);
    } else if x > cursor {
      NextPollCatches(tables[0], room, cursor, x);
      if !Holds(page, x) {
        PollDelivers(tables[1..], room, next, x);
      }
    }
  }

  lemma HoldsConcat(a: seq<Message>, b: seq<Message>, x: int)
    ensures Holds(a + b, x) <==> Holds(a, x) || Holds(b, x)
  {
    if Holds(a, x) {
      var m :| m in a && m.id == x;
      assert m in a + b;
    }
    if Holds(b, x) {
      var m :| m in b && m.id == x;
      assert m in a + b;
    }
  }

  lemma {:induction false} PollMisses(tables: seq<Table>, room: string, cursor: int, x: int)
    requires TablesOk(tables)
    requires forall k :: 0 <= k < |tables| ==> !Visible(tables[k], room, x)
    ensures !Holds(Poll(tables, room, cursor), x) && CursorAfter(tables, room, cursor) >= cursor
    decreases |tables|
  {
    if tables != [] {
      var page := ListMessages(tables[0], room, 0, cursor);
      PollPageOk(tables[0], room, cursor);
      PollMisses(tables[1..], room, NextCursor(page, cursor), x);
      forall m | m in page
        ensures m.id != x
      {
        assert m in tables[0];
      }
    }
  }

  lemma {:induction false} PollSplit(a: seq<Table>, b: seq<Table>, room: string, cursor: int)
    ensures Poll(a + b, room, cursor) == Poll(a, room, cursor) + Poll(b, room, CursorAfter(a, room, cursor))
    ensures b != [] ==> (CaughtUp(a + b, room, cursor) <==> CaughtUp(b, room, CursorAfter(a, room, cursor)))
    decreases |a|
  {
    if a == [] {
      assert a + b == b;
    } else {
      var page := ListMessages(a[0], room, 0, cursor);
      assert (a + b)[1..] == a[1..] + b;
      PollSplit(a[1..], b, room, NextCursor(page, cursor));
      Associate(page, Poll(a[1..], room, NextCursor(page, cursor)), Poll(b, room, CursorAfter(a, room, cursor)));
    }
  }

  /**
   A message that becomes visible between two polls and stays is delivered
   exactly when the first poll that could see it reaches it: its id is larger
   than the client's cursor then, or, for a client that has seen nothing yet,
   fewer than a page of messages are newer.  By PollAscends it is never
   delivered twice.
   */
  lemma PollDeliversExactly(before: seq<Table>, since: seq<Table>, room: string, cursor: int, x: int)
    requires TablesOk(before) && TablesOk(since)
    requires since != [] && CaughtUp(before + since, room, cursor)
    requires forall k :: 0 <= k < |before| ==> !Visible(before[k], room, x)
    requires forall k :: 0 <= k < |since| ==> Visible(since[k], room, x)
    ensures Holds(Poll(before + since, room, cursor), x) <==> Reaches(since[0], room, CursorAfter(before, room, cursor), x)
  {
    var mid := CursorAfter(before, room, cursor);
    PollSplit(before, since, room, cursor);
    PollMisses(before, room, cursor, x);
    PollDelivers(since, room, mid, x);
    HoldsConcat(Poll(before, room, cursor), Poll(since, room, mid), x);
  }

  function Sent(id: int): Message {
    Message(id, "global", "", "", "", false, false)
  }

  lemma SelectAscendingSent(t: Table, b: Bound)
    requires t == [Sent(1)] || t == [Sent(1), Sent(3)] || t == [Sent(1), Sent(2), Sent(3)]
    ensures TableOk(t)
    ensures Select(t, "global", false, Unbounded) == t
    ensures b == Above(1) && t == [Sent(1), Sent(3)] ==> Select(t, "global", false, b) == [Sent(3)]
    ensures b == Above(3) && |t| == 3 ==> Select(t, "global", false, b) == []
  {
    assert t[1..] == if |t| == 1 then [] else if |t| == 2 then [Sent(3)] else [Sent(2), Sent(3)];
    assert |t| == 3 ==> t[1..][1..] == [Sent(3)];
    assert Select([Sent(3)], "global", false, b) == if Within(Sent(3), b) then [Sent(3)] else [];
    assert Select([Sent(3)], "global", false, Unbounded) == [Sent(3)];
  }

  /**
   Ids are taken when a message is inserted, rows appear when it is committed.
   A client receives message 1, then message 3; message 2 commits only
   afterwards, stays visible, and is never delivered.  The lock around sending
   serialises the threads of one process, so this needs two processes.
   */
  lemma LateCommitIsMissed()
    ensures var one, three, all := [Sent(1)], [Sent(1), Sent(3)], [Sent(1), Sent(2), Sent(3)];
            && TablesOk([one, three, all]) && CaughtUp([one, three, all], "global", 0)
            && CursorAfter([one], "global", 0) == 1 && CursorAfter([one, three], "global", 0) == 3
            && Visible(all, "global", 2) && !Visible(three, "global", 2)
            && Holds(Poll([one, three, all], "global", 0), 1) && Holds(Poll([one, three, all], "global", 0), 3)
            && !Holds(Poll([one, three, all], "global", 0), 2)
  {
    var one, three, all := [Sent(1)], [Sent(1), Sent(3)], [Sent(1), Sent(2), Sent(3)];
    LatePages(one, three, all);
    LateTables(one, three, all);
    ThreePolls(one, three, all);
  }

  lemma LatePages(one: Table, three: Table, all: Table)
    requires one == [Sent(1)] && three == [Sent(1), Sent(3)] && all == [Sent(1), Sent(2), Sent(3)]
    ensures ListMessages(one, "global", 0, 0) == [Sent(1)]
    ensures ListMessages(three, "global", 0, 1) == [Sent(3)] && ListMessages(all, "global", 0, 3) == []
  {
    SelectAscendingSent(one, Unbounded);
    SelectAscendingSent(three, Above(1));
    SelectAscendingSent(all, Above(3));
    PageIs(one, "global", 0, 0);
    PageIs(three, "global", 0, 1);
    PageIs(all, "global", 0, 3);
  }

  lemma LateTables(one: Table, three: Table, all: Table)
    requires one == [Sent(1)] && three == [Sent(1), Sent(3)] && all == [Sent(1), Sent(2), Sent(3)]
    ensures TablesOk([one, three, all]) && Visible(all, "global", 2) && !Visible(three, "global", 2)
  {
    assert all[1] == Sent(2) && Sent(2) in all;
    assert forall m :: m in three ==> m == Sent(1) || m == Sent(3);
  }

  lemma ThreePolls(one: Table, three: Table, all: Table)
    requires ListMessages(one, "global", 0, 0) == [Sent(1)]
    requires ListMessages(three, "global", 0, 1) == [Sent(3)] && ListMessages(all, "global", 0, 3) == []
    ensures CaughtUp([one, three, all], "global", 0)
    ensures CursorAfter([one], "global", 0) == 1 && CursorAfter([one, three], "global", 0) == 3
    ensures Poll([one, three, all], "global", 0) == [Sent(1), Sent(3)]
    ensures Holds([Sent(1), Sent(3)], 1) && Holds([Sent(1), Sent(3)], 3) && !Holds([Sent(1), Sent(3)], 2)
  {
    assert [one, three, all][1..] == [three, all] && [three, all][1..] == [all] && [all][1..] == [];
    assert [one, three][1..] == [three] && [three][1..] == [] && [one][1..] == [];
    assert Poll([all], "global", 3) == [];
    assert Poll([three, all], "global", 1) == [Sent(3)];
    assert CursorAfter([three], "global", 1) == 3;
    assert Sent(1) in [Sent(1), Sent(3)] && Sent(3) in [Sent(1), Sent(3)];
  }

  /** The first page without a cursor is the whole room exactly when the room has at most one page of messages. */
  lemma FirstPageIsAllExactly(t: Table, room: string)
    ensures ListMessages(t, room, 0, 0) == Select(t, room, false, Unbounded)
            <==> |Select(t, room, false, Unbounded)| <= PAGE_SIZE
  {
    PageIs(t, room, 0, 0);
  }

  // ----------------------------------------------------------------- operations

  datatype ChatError = Blocked | NotFound | NotOwner

  function Same(login: string): string {
    Lower(Strip(login))
  }

  /** The undeleted message with the id. */
  function Find(t: Table, id: int): Option<nat> {
    if t == [] then None
    else if t[0].id == id && !t[0].deleted then Some(0)
    else
      match Find(t[1..], id)
      case None => None
      case Some(k) => Some(k + 1)
  }

  lemma {:induction false} FindIs(t: Table, id: int)
    ensures Find(t, id).Some? ==> Find(t, id).value < |t| && t[Find(t, id).value].id == id && !t[Find(t, id).value].deleted
    ensures Find(t, id).None? ==> forall k :: 0 <= k < |t| ==> !(t[k].id == id && !t[k].deleted)
  {
    if t != [] && !(t[0].id == id && !t[0].deleted) {
      FindIs(t[1..], id);
    }
  }

  predicate Present(t: Table, id: int) {
    exists k :: 0 <= k < |t| && t[k].id == id && !t[k].deleted
  }

  predicate Owned(t: Table, id: int, login: string) {
    exists k :: 0 <= k < |t| && t[k].id == id && !t[k].deleted && Same(t[k].author) == Same(login)
  }

  /** A message is somebody's own when the logins agree but for case and outer spaces; deleted ones are nobody's. */
  lemma OwnedMeans(t: Table, id: int, login: string)
    ensures Present(t, id) <==> exists m :: m in t && m.id == id && !m.deleted
    ensures Owned(t, id, login) <==> exists m :: m in t && m.id == id && !m.deleted && Lower(Strip(m.author)) == Lower(Strip(login))
  {
    if m :| m in t && m.id == id && !m.deleted {
      var k :| 0 <= k < |t| && t[k] == m;
    }
    if m :| m in t && m.id == id && !m.deleted && Lower(Strip(m.author)) == Lower(Strip(login)) {
      var k :| 0 <= k < |t| && t[k] == m;
    }
  }

  /** How a change to one's own message may end. */
  predicate Answers(t: Table, id: int, login: string, done: Result<(), ChatError>) {
    && (done.Success? <==> Owned(t, id, login))
    && (done.Failure? ==> done.error == if Present(t, id) then NotOwner else NotFound)
  }

  class ChatStore {
    var messages: Table
    var nextId: int
    var blocked: set<string>

    predicate Valid()
      reads this
    {
      TableOk(messages) && nextId >= 1 && forall i :: 0 <= i < |messages| ==> messages[i].id < nextId
    }

    constructor ()
      ensures Valid() && messages == [] && blocked == {}
    {
      messages, nextId, blocked := [], 1, {};
    }

    method SendMessage(room: string, name: string, login: string, body: string) returns (sent: Result<int, ChatError>)
      requires Valid()
      modifies this
      ensures Valid() && blocked == old(blocked)
      ensures sent.Failure? <==> Same(login) in blocked
      ensures sent.Failure? ==> sent.error == Blocked && messages == old(messages)
      ensures sent.Success? ==>
                && messages == old(messages) + [Message(sent.value, room, name, login, body, false, false)]
                && forall m :: m in old(messages) ==> m.id < sent.value
    {
      if Same(login) in blocked {
        return Failure(Blocked);
      }
      messages := messages + [Message(nextId, room, name, login, body, false, false)];
      nextId := nextId + 1;
      return Success(nextId - 1);
    }

    /** The owner's undeleted message, or why not. */
    method RequireOwned(id: int, login: string) returns (found: Result<nat, ChatError>)
      requires Valid()
      ensures found.Success? <==> Owned(messages, id, login)
      ensures found.Success? ==> found.value < |messages| && messages[found.value].id == id && !messages[found.value].deleted
      ensures found.Failure? ==>
                found.error == if Present(messages, id) then NotOwner else NotFound
    {
      FindIs(messages, id);
      var at := Find(messages, id);
      if at.None? {
        return Failure(NotFound);
      }
      if Same(messages[at.value].author) != Same(login) {
        return Failure(NotOwner);
      }
      return Success(at.value);
    }

    method EditMessage(id: int, login: string, body: string) returns (done: Result<(), ChatError>)
      requires Valid()
      modifies this
      ensures Valid() && nextId == old(nextId) && blocked == old(blocked) && |messages| == |old(messages)|
      ensures Answers(old(messages), id, login, done)
      ensures forall k :: 0 <= k < |messages| ==>
                messages[k] == if done.Success? && old(messages)[k].id == id
                               then old(messages)[k].(body := body, edited := true) else old(messages)[k]
    {
      var found := RequireOwned(id, login);
      if found.Failure? {
        return Failure(found.error);
      }
      messages := messages[found.value := messages[found.value].(body := body, edited := true)];
      return Success(());
    }

    /** A deleted message leaves every page of its room, and nothing else changes. */
    method DeleteMessage(id: int, login: string) returns (done: Result<(), ChatError>)
      requires Valid()
      modifies this
      ensures Valid() && nextId == old(nextId) && blocked == old(blocked) && |messages| == |old(messages)|
      ensures Answers(old(messages), id, login, done)
      ensures forall k :: 0 <= k < |messages| ==>
                messages[k] == if done.Success? && old(messages)[k].id == id
                               then old(messages)[k].(deleted := true) else old(messages)[k]
      ensures done.Success? ==> forall room, before, after :: !Holds(ListMessages(messages, room, before, after), id)
    {
      var found := RequireOwned(id, login);
      if found.Failure? {
        return Failure(found.error);
      }
      messages := messages[found.value := messages[found.value].(deleted := true)];
      forall room, before, after
        ensures !Holds(ListMessages(messages, room, before, after), id)
      {
        PageOk(messages, room, before, after);
      }
      return Success(());
    }
  }
}
