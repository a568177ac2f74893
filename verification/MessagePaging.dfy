/**
 Walking a room page by page. Between two page reads other clients may insert and soft-delete
 messages, the cursor's own message included; a walk is therefore a sequence of pages, each read from
 a later table than the one before.
 */
module MessagePaging {
  import opened Wrappers
  import opened MessageContent
  import opened MessageStore

  // ---------- walks ----------

  ghost predicate EvolvesAll(tables: seq<Rows>) {
    && (forall i :: 0 <= i < |tables| ==> UniqueIds(tables[i]))
    && (forall i, j :: 0 <= i < j < |tables| ==> Evolves(tables[i], tables[j]))
  }

  /**
   The pages a client has read so far from the given tables, starting below a cursor and following the
   returned cursors. The client may stop at any time, or never come to the end.
   */
  ghost predicate IsWalk(tables: seq<Rows>, pages: seq<Page>, room: RoomId, limit: nat, cursor: Option<Id>)
    requires limit >= 1
    decreases |pages|
  {
    && |tables| == |pages| > 0
    && ReadPage(tables[0], room, cursor, limit) == Ok(pages[0])
    && (|pages| > 1 ==> pages[0].next.Some? && IsWalk(tables[1..], pages[1..], room, limit, pages[0].next))
  }

  /** The walk has come to a page without a cursor. */
  predicate IsComplete(pages: seq<Page>) {
    pages != [] && pages[|pages| - 1].next.None?
  }

  function KeysOf(messages: seq<Message>): (keys: seq<Key>)
    ensures |keys| == |messages| && forall i :: 0 <= i < |keys| ==> keys[i] == KeyOfMessage(messages[i])
  {
    seq(|messages|, i requires 0 <= i < |messages| => KeyOfMessage(messages[i]))
  }

  /** Everything the client got, in the order it got it. */
  function Received(pages: seq<Page>): seq<Message> {
    if pages == [] then [] else pages[0].messages + Received(pages[1..])
  }

  ghost predicate DescendingKeys(keys: seq<Key>) {
    forall i, j :: 0 <= i < j < |keys| ==> Below(keys[j], keys[i])
  }

  ghost predicate AllBelow(keys: seq<Key>, bound: Option<Key>) {
    forall i :: 0 <= i < |keys| ==> bound.Some? ==> Below(keys[i], bound.value)
  }

  /** The cursor a page returns stays usable: its row is still there, with the same key. */
  lemma CursorSurvives(before: Rows, after: Rows, id: Id)
    requires UniqueIds(before) && Evolves(before, after) && Find(before, id).Some?
    ensures Find(after, id).Some? && BoundOf(after, Some(id)) == BoundOf(before, Some(id))
  {
    var r := Find(before, id).value;
    var i :| 0 <= i < |before| && before[i] == r;
    FindsItsRow(after, i);
  }

  /** The keys of a page are those of the first rows of its listing. */
  lemma PageKeysAreListed(rows: Rows, room: RoomId, cursor: Option<Id>, limit: nat)
    requires limit >= 1 && ReadPage(rows, room, cursor, limit).Ok?
    ensures var p := ReadPage(rows, room, cursor, limit).value; var l := Listing(rows, room, BoundOf(rows, cursor));
            && |p.messages| == |Take(l, limit)|
            && (forall i :: 0 <= i < |p.messages| ==> KeysOf(p.messages)[i] == KeyOf(l[i]))
            && p.next == if |l| > limit then Some(l[limit - 1].id) else None
  {
    PageIsPrefix(rows, room, cursor, limit);
  }

  lemma ListedRow(rows: Rows, room: RoomId, bound: Option<Key>, i: nat)
    requires UniqueIds(rows) && i < |Listing(rows, room, bound)|
    ensures var r := Listing(rows, room, bound)[i];
            r in rows && Matches(r, room, bound) && Find(rows, r.id) == Some(r)
  {
    ListingIsSorted(rows, room, bound);
    var r := Listing(rows, room, bound)[i];
    assert r in Listing(rows, room, bound);
    var k :| 0 <= k < |rows| && rows[k] == r;
    FindsItsRow(rows, k);
  }

  /** The first keys of a listing descend below its bound. */
  lemma ListedKeys(rows: Rows, room: RoomId, bound: Option<Key>, keys: seq<Key>)
    requires UniqueIds(rows) && |keys| <= |Listing(rows, room, bound)|
    requires forall i :: 0 <= i < |keys| ==> keys[i] == KeyOf(Listing(rows, room, bound)[i])
    ensures DescendingKeys(keys) && AllBelow(keys, bound)
  {
    ListingIsSorted(rows, room, bound);
    forall i | 0 <= i < |keys| && bound.Some? ensures Below(keys[i], bound.value) {
      ListedRow(rows, room, bound, i);
    }
  }

  /** The row of a page's last message, if the page has a cursor. */
  lemma LastRow(rows: Rows, room: RoomId, cursor: Option<Id>, limit: nat) returns (last: Row)
    requires limit >= 1 && UniqueIds(rows) && ReadPage(rows, room, cursor, limit).Ok?
    requires ReadPage(rows, room, cursor, limit).value.next.Some?
    ensures Find(rows, last.id) == Some(last)
    ensures var p := ReadPage(rows, room, cursor, limit).value;
            p.next == Some(last.id) && |p.messages| == limit && KeysOf(p.messages)[limit - 1] == KeyOf(last)
  {
    PageKeysAreListed(rows, room, cursor, limit);
    ListedRow(rows, room, BoundOf(rows, cursor), limit - 1);
    last := Listing(rows, room, BoundOf(rows, cursor))[limit - 1];
  }

  /** A cursor's bound is the key of its row. */
  lemma BoundOfRow(rows: Rows, r: Row)
    requires Find(rows, r.id) == Some(r)
    ensures BoundOf(rows, Some(r.id)) == Some(KeyOf(r))
  {
  }

  /** One page: its keys descend below the bound, and its cursor is the key of its last message. */
  lemma PageKeys(rows: Rows, room: RoomId, cursor: Option<Id>, limit: nat)
    requires limit >= 1 && UniqueIds(rows) && ReadPage(rows, room, cursor, limit).Ok?
    ensures var p := ReadPage(rows, room, cursor, limit).value; var keys := KeysOf(p.messages);
            && DescendingKeys(keys)
            && AllBelow(keys, BoundOf(rows, cursor))
            && (p.next.Some? ==>
                  && keys != [] && Find(rows, p.next.value).Some?
                  && BoundOf(rows, p.next) == Some(keys[|keys| - 1]))
  {
    PageKeysAreListed(rows, room, cursor, limit);
    ListedKeys(rows, room, BoundOf(rows, cursor), KeysOf(ReadPage(rows, room, cursor, limit).value.messages));
    if ReadPage(rows, room, cursor, limit).value.next.Some? {
      var last := LastRow(rows, room, cursor, limit);
      BoundOfRow(rows, last);
    }
  }

  lemma TailEvolves(tables: seq<Rows>)
    requires EvolvesAll(tables) && tables != []
    ensures EvolvesAll(tables[1..])
  {
  }

  lemma ReceivedKeys(pages: seq<Page>)
    requires pages != []
    ensures KeysOf(Received(pages)) == KeysOf(pages[0].messages) + KeysOf(Received(pages[1..]))
    ensures |pages| == 1 ==> KeysOf(Received(pages)) == KeysOf(pages[0].messages)
  {
    assert |pages| == 1 ==> Received(pages[1..]) == [];
  }

  lemma DescendingJoin(a: seq<Key>, b: seq<Key>, bound: Option<Key>)
    requires DescendingKeys(a) && DescendingKeys(b) && a != [] && AllBelow(b, Some(a[|a| - 1]))
    requires AllBelow(a, bound)
    ensures DescendingKeys(a + b) && AllBelow(a + b, bound)
  {
    forall i, j | 0 <= i < j < |a + b| ensures Below((a + b)[j], (a + b)[i]) {
      if i < |a| <= j {
        assert Below(b[j - |a|], a[|a| - 1]);
      }
    }
  }

  /** The first page of a walk descends below the cursor, and the rest of the walk starts below its last key. */
  lemma FirstPage(tables: seq<Rows>, pages: seq<Page>, room: RoomId, limit: nat, cursor: Option<Id>)
    returns (keys: seq<Key>)
    requires limit >= 1 && EvolvesAll(tables) && IsWalk(tables, pages, room, limit, cursor)
    ensures keys == KeysOf(pages[0].messages) && DescendingKeys(keys) && AllBelow(keys, BoundOf(tables[0], cursor))
    ensures |pages| > 1 ==>
      && EvolvesAll(tables[1..]) && IsWalk(tables[1..], pages[1..], room, limit, pages[0].next)
      && keys != [] && BoundOf(tables[1], pages[0].next) == Some(keys[|keys| - 1])
  {
    keys := KeysOf(pages[0].messages);
    PageKeys(tables[0], room, cursor, limit);
    if |pages| > 1 {
      TailEvolves(tables);
      CursorSurvives(tables[0], tables[1], pages[0].next.value);
    }
  }

  /** All pages of a walk, complete or not, descend strictly together, so nothing is received twice. */
  lemma {:induction false} WalkDescends(tables: seq<Rows>, pages: seq<Page>, room: RoomId, limit: nat,
                                        cursor: Option<Id>)
    requires limit >= 1 && EvolvesAll(tables) && IsWalk(tables, pages, room, limit, cursor)
    ensures DescendingKeys(KeysOf(Received(pages)))
    ensures AllBelow(KeysOf(Received(pages)), BoundOf(tables[0], cursor))
    decreases |pages|
  {
    var first := FirstPage(tables, pages, room, limit, cursor);
    ReceivedKeys(pages);
    if |pages| > 1 {
      WalkDescends(tables[1..], pages[1..], room, limit, pages[0].next);
      assert tables[1..][0] == tables[1];
      DescendingJoin(first, KeysOf(Received(pages[1..])), BoundOf(tables[0], cursor));
    }
  }

  /** The message was in the room and live at the first and at the last page read, hence throughout. */
  ghost predicate LiveThroughout(tables: seq<Rows>, r: Row, room: RoomId) {
    tables != [] && r in tables[0] && r in tables[|tables| - 1] && !r.deleted && r.room == room
  }

  lemma LiveInBetween(tables: seq<Rows>, r: Row, room: RoomId)
    requires EvolvesAll(tables) && LiveThroughout(tables, r, room) && |tables| > 1
    ensures LiveThroughout(tables[1..], r, room)
  {
    var n := |tables| - 1;
    var k :| 0 <= k < |tables[0]| && tables[0][k] == r;
    var m :| 0 <= m < |tables[n]| && tables[n][m] == r;
    assert Evolves(tables[0], tables[n]) && Evolves(tables[0], tables[1]);
    assert k == m;
    if n > 1 {
      assert Evolves(tables[1], tables[n]);
    }
    assert tables[1][k] == r;
  }

  /** A matching row is on the page or below the cursor the page returns. */
  lemma PageHasRowOrPassesItOn(rows: Rows, room: RoomId, cursor: Option<Id>, limit: nat, r: Row)
    requires limit >= 1 && UniqueIds(rows) && ReadPage(rows, room, cursor, limit).Ok?
    requires r in rows && Matches(r, room, BoundOf(rows, cursor))
    ensures var p := ReadPage(rows, room, cursor, limit).value;
            KeyOf(r) in KeysOf(p.messages) || (p.next.Some? && Matches(r, room, BoundOf(rows, p.next)))
  {
    var p := ReadPage(rows, room, cursor, limit).value;
    var l := Listing(rows, room, BoundOf(rows, cursor));
    ListingIsSorted(rows, room, BoundOf(rows, cursor));
    PageKeysAreListed(rows, room, cursor, limit);
    PageKeys(rows, room, cursor, limit);
    var k :| 0 <= k < |l| && l[k] == r;
    assert k < |p.messages| ==> KeysOf(p.messages)[k] == KeyOf(r);
  }

  /** When the walk has ended, every message that stayed live throughout was received. */
  lemma {:induction false} WalkMissesNothing(tables: seq<Rows>, pages: seq<Page>, room: RoomId, limit: nat,
                                             cursor: Option<Id>, r: Row)
    requires limit >= 1 && EvolvesAll(tables) && IsWalk(tables, pages, room, limit, cursor)
    requires IsComplete(pages) && LiveThroughout(tables, r, room) && Matches(r, room, BoundOf(tables[0], cursor))
    ensures KeyOf(r) in KeysOf(Received(pages))
    decreases |pages|
  {
    PageHasRowOrPassesItOn(tables[0], room, cursor, limit, r);
    ReceivedKeys(pages);
    if KeyOf(r) !in KeysOf(pages[0].messages) {
      PageKeys(tables[0], room, cursor, limit);
      LiveInBetween(tables, r, room);
      TailEvolves(tables);
      CursorSurvives(tables[0], tables[1], pages[0].next.value);
      WalkMissesNothing(tables[1..], pages[1..], room, limit, pages[0].next, r);
    }
  }

  /** The message is what one of the tables shows of a row that is live in the room. */
  ghost predicate LiveInOne(tables: seq<Rows>, room: RoomId, m: Message) {
    exists i, r ::
      0 <= i < |tables| && r in tables[i] && !r.deleted && r.room == room && ReadRow(tables[i], r) == Ok(m)
  }

  lemma PageInventsNothing(rows: Rows, room: RoomId, cursor: Option<Id>, limit: nat, k: nat) returns (r: Row)
    requires limit >= 1 && UniqueIds(rows) && ReadPage(rows, room, cursor, limit).Ok?
    requires k < |ReadPage(rows, room, cursor, limit).value.messages|
    ensures r in rows && !r.deleted && r.room == room
    ensures ReadRow(rows, r) == Ok(ReadPage(rows, room, cursor, limit).value.messages[k])
  {
    PageIsPrefix(rows, room, cursor, limit);
    ListedRow(rows, room, BoundOf(rows, cursor), k);
    r := Listing(rows, room, BoundOf(rows, cursor))[k];
  }

  /** Every received message was live in the room when its page was read. */
  lemma {:induction false} WalkInventsNothing(tables: seq<Rows>, pages: seq<Page>, room: RoomId, limit: nat,
                                              cursor: Option<Id>, m: Message)
    requires limit >= 1 && EvolvesAll(tables) && IsWalk(tables, pages, room, limit, cursor)
    ensures m in Received(pages) ==> LiveInOne(tables, room, m)
    decreases |pages|
  {
    assert |pages| == 1 ==> Received(pages[1..]) == [];
    if m in pages[0].messages {
      var k :| 0 <= k < |pages[0].messages| && pages[0].messages[k] == m;
      var r := PageInventsNothing(tables[0], room, cursor, limit, k);
      assert LiveInOne(tables, room, m);
    } else if |pages| > 1 && m in Received(pages) {
      assert m in Received(pages[1..]);
      TailEvolves(tables);
      WalkInventsNothing(tables[1..], pages[1..], room, limit, pages[0].next, m);
      var i, r :|
        && 0 <= i < |tables[1..]| && r in tables[1..][i] && !r.deleted && r.room == room
        && ReadRow(tables[1..][i], r) == Ok(m);
      assert r in tables[i + 1] && ReadRow(tables[i + 1], r) == Ok(m);
    }
  }

  // ---------- a quiet room ----------

  ghost predicate Decodable(rows: Rows) {
    forall i :: 0 <= i < |rows| ==> Unmarshal(rows[i].kind, rows[i].content).Ok?
  }

  lemma DecodablePage(rows: Rows, room: RoomId, cursor: Option<Id>, limit: nat)
    requires limit >= 1 && UniqueIds(rows) && Decodable(rows)
    requires cursor.Some? ==> Find(rows, cursor.value).Some?
    ensures ReadPage(rows, room, cursor, limit).Ok?
  {
    var selected := Take(Listing(rows, room, BoundOf(rows, cursor)), limit + 1);
    ListingIsSorted(rows, room, BoundOf(rows, cursor));
    ReadAllReads(rows, selected);
    forall i | 0 <= i < |selected| ensures ReadRow(rows, selected[i]).Ok? {
      assert selected[i] == Listing(rows, room, BoundOf(rows, cursor))[i];
      assert selected[i] in rows;
    }
  }

  function CeilDiv(n: nat, d: nat): nat
    requires d >= 1
  {
    if n <= d then (if n == 0 then 0 else 1) else 1 + CeilDiv(n - d, d)
  }

  /** Enough windows of d to cover n, and one fewer would not do. */
  lemma {:induction false} CeilDivCovers(n: nat, d: nat)
    requires d >= 1
    ensures var c := CeilDiv(n, d); n <= c * d && (n > 0 ==> c >= 1 && (c - 1) * d < n)
  {
    if n > d {
      CeilDivCovers(n - d, d);
      var c := CeilDiv(n - d, d);
      assert (c + 1) * d == c * d + d && c * d == (c - 1) * d + d;
    }
  }

  /** What a walk of an unchanging room yields: the listing from the cursor on. */
  ghost predicate Yields(rows: Rows, room: RoomId, limit: nat, cursor: Option<Id>, pages: seq<Page>)
    requires limit >= 1
  {
    var l := Listing(rows, room, BoundOf(rows, cursor));
    && IsWalk(Same(rows, |pages|), pages, room, limit, cursor)
    && IsComplete(pages)
    && |pages| == (if l == [] then 1 else CeilDiv(|l|, limit))
    && |Received(pages)| == |l|
    && forall i :: 0 <= i < |l| ==> ReadRow(rows, l[i]) == Ok(Received(pages)[i])
  }

  /**
   In a room that does not change, the walk ends: each page takes `limit` rows off the listing. It
   yields the whole listing, in max(1, n / limit rounded up) pages.
   */
  lemma {:induction false} QuietWalk(rows: Rows, room: RoomId, limit: nat, cursor: Option<Id>)
    returns (pages: seq<Page>)
    requires limit >= 1 && UniqueIds(rows) && Decodable(rows)
    requires cursor.Some? ==> Find(rows, cursor.value).Some?
    ensures Yields(rows, room, limit, cursor, pages)
    decreases |Listing(rows, room, BoundOf(rows, cursor))|
  {
    DecodablePage(rows, room, cursor, limit);
    var first := ReadPage(rows, room, cursor, limit).value;
    if first.next.None? {
      pages := [first];
      QuietEnd(rows, room, limit, cursor, first);
    } else {
      QuietCursor(rows, room, limit, cursor, first);
      var rest := QuietWalk(rows, room, limit, first.next);
      pages := [first] + rest;
      QuietStep(rows, room, limit, cursor, first, rest);
    }
  }

  lemma QuietEnd(rows: Rows, room: RoomId, limit: nat, cursor: Option<Id>, last: Page)
    requires limit >= 1 && ReadPage(rows, room, cursor, limit) == Ok(last) && last.next.None?
    ensures Yields(rows, room, limit, cursor, [last])
  {
    PageIsPrefix(rows, room, cursor, limit);
    assert Received([last][1..]) == [];
    assert Received([last]) == last.messages;
  }

  /** The next page starts right after this one's last row. */
  lemma QuietCursor(rows: Rows, room: RoomId, limit: nat, cursor: Option<Id>, first: Page)
    requires limit >= 1 && UniqueIds(rows) && ReadPage(rows, room, cursor, limit) == Ok(first) && first.next.Some?
    ensures Find(rows, first.next.value).Some?
    ensures var l := Listing(rows, room, BoundOf(rows, cursor));
            |l| > limit && Listing(rows, room, BoundOf(rows, first.next)) == l[limit..]
  {
    PageKeysAreListed(rows, room, cursor, limit);
    ListingBelow(rows, room, BoundOf(rows, cursor), limit - 1);
    ListedRow(rows, room, BoundOf(rows, cursor), limit - 1);
  }

  lemma QuietStep(rows: Rows, room: RoomId, limit: nat, cursor: Option<Id>, first: Page, rest: seq<Page>)
    requires limit >= 1 && ReadPage(rows, room, cursor, limit) == Ok(first) && first.next.Some?
    requires Yields(rows, room, limit, first.next, rest)
    requires var l := Listing(rows, room, BoundOf(rows, cursor));
             |l| > limit && Listing(rows, room, BoundOf(rows, first.next)) == l[limit..]
    ensures Yields(rows, room, limit, cursor, [first] + rest)
  {
    var pages := [first] + rest;
    var l := Listing(rows, room, BoundOf(rows, cursor));
    assert pages[1..] == rest;
    assert IsWalk(Same(rows, |pages|), pages, room, limit, cursor) by {
      assert Same(rows, |pages|)[1..] == Same(rows, |rest|);
    }
    assert |pages| == CeilDiv(|l|, limit) by {
      assert |l[limit..]| == |l| - limit;
    }
    PageIsPrefix(rows, room, cursor, limit);
    JoinRead(rows, l, limit, first.messages, Received(rest));
    assert Received(pages) == first.messages + Received(rest);
  }

  /**
   There is no other walk through a room that does not change: whatever a client reads is the beginning of
   the finished walk, and no walk is longer.
   */
  lemma {:induction false} QuietWalkIsTheOnlyOne(rows: Rows, room: RoomId, limit: nat, cursor: Option<Id>,
                                                 whole: seq<Page>, pages: seq<Page>)
    requires limit >= 1
    requires IsWalk(Same(rows, |whole|), whole, room, limit, cursor) && IsComplete(whole)
    requires IsWalk(Same(rows, |pages|), pages, room, limit, cursor)
    ensures pages <= whole && (IsComplete(pages) ==> pages == whole)
    decreases |whole|
  {
    assert whole[0] == pages[0];
    if |pages| > 1 {
      TailOfSame(rows, room, limit, cursor, whole);
      TailOfSame(rows, room, limit, cursor, pages);
      QuietWalkIsTheOnlyOne(rows, room, limit, pages[0].next, whole[1..], pages[1..]);
    }
    assert pages == [pages[0]] + pages[1..] && whole == [whole[0]] + whole[1..];
  }

  lemma TailOfSame(rows: Rows, room: RoomId, limit: nat, cursor: Option<Id>, pages: seq<Page>)
    requires limit >= 1 && |pages| > 1 && IsWalk(Same(rows, |pages|), pages, room, limit, cursor)
    ensures IsWalk(Same(rows, |pages[1..]|), pages[1..], room, limit, pages[0].next)
  {
    assert Same(rows, |pages|)[1..] == Same(rows, |pages[1..]|);
  }

  lemma JoinRead(rows: Rows, l: seq<Row>, limit: nat, first: seq<Message>, rest: seq<Message>)
    requires limit == |first| && |l| == limit + |rest|
    requires forall i :: 0 <= i < limit ==> ReadRow(rows, l[i]) == Ok(first[i])
    requires forall i :: 0 <= i < |rest| ==> ReadRow(rows, l[limit..][i]) == Ok(rest[i])
    ensures forall i :: 0 <= i < |l| ==> ReadRow(rows, l[i]) == Ok((first + rest)[i])
  {
    forall i | 0 <= i < |l| ensures ReadRow(rows, l[i]) == Ok((first + rest)[i]) {
      if i >= limit {
        assert l[i] == l[limit..][i - limit];
      }
    }
  }

  function Same(rows: Rows, n: nat): (tables: seq<Rows>)
    ensures |tables| == n && forall i :: 0 <= i < n ==> tables[i] == rows
  {
    seq(n, i => rows)
  }
}
