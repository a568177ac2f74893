/**
 The messages table and the repository's statements on it: insert, soft delete, single read and the
 keyset page read with its look-ahead row.

 Rows are kept in the order they were inserted and are never removed. A message is ordered by its key
 (created_at, id); created_at need not agree with the order of insertion.
 */
module MessageStore {
  import opened Wrappers
  import opened MessageContent

  type Id = nat
  type RoomId = nat
  type UserId = nat

  datatype Key = Key(at: nat, id: Id)

  datatype Row = Row(id: Id, room: RoomId, sender: UserId, kind: MessageType, content: Document,
                     replyTo: Option<Id>, deleted: bool, at: nat)

  type Rows = seq<Row>

  function KeyOf(r: Row): Key {
    Key(r.at, r.id)
  }

  predicate Below(a: Key, b: Key) {
    a.at < b.at || (a.at == b.at && a.id < b.id)
  }

  /** The primary key. */
  ghost predicate UniqueIds(rows: Rows) {
    forall i, j :: 0 <= i < j < |rows| ==> rows[i].id != rows[j].id
  }

  /** The row with the given id, if there is one. */
  function Find(rows: Rows, id: Id): (r: Option<Row>)
    ensures r.Some? ==> r.value in rows && r.value.id == id
    ensures r.None? ==> forall i :: 0 <= i < |rows| ==> rows[i].id != id
  {
    if rows == [] then None
    else if rows[|rows| - 1].id == id then Some(rows[|rows| - 1])
    else Find(rows[..|rows| - 1], id)
  }

  lemma FindsItsRow(rows: Rows, i: nat)
    requires UniqueIds(rows) && i < |rows|
    ensures Find(rows, rows[i].id) == Some(rows[i])
  {
    var r := Find(rows, rows[i].id).value;
    var j :| 0 <= j < |rows| && rows[j] == r;
  }

  // ---------- ORDER BY created_at DESC, id DESC ----------

  predicate Descending(s: seq<Row>) {
    forall i, j :: 0 <= i < j < |s| ==> Below(KeyOf(s[j]), KeyOf(s[i]))
  }

  predicate Matches(r: Row, room: RoomId, bound: Option<Key>) {
    r.room == room && !r.deleted && (bound.Some? ==> Below(KeyOf(r), bound.value))
  }

  /** Puts a row in front of the rows below it. */
  function Insert(s: seq<Row>, r: Row): seq<Row> {
    if s == [] || Below(KeyOf(s[0]), KeyOf(r)) then [r] + s else [s[0]] + Insert(s[1..], r)
  }

  /** The live rows of a room below the bound, newest first. */
  function Listing(rows: Rows, room: RoomId, bound: Option<Key>): seq<Row> {
    if rows == [] then []
    else
      var rest := Listing(rows[..|rows| - 1], room, bound);
      var r := rows[|rows| - 1];
      if Matches(r, room, bound) then Insert(rest, r) else rest
  }

  lemma {:induction false} InsertSorts(s: seq<Row>, r: Row)
    requires Descending(s) && forall i :: 0 <= i < |s| ==> s[i].id != r.id
    ensures Descending(Insert(s, r)) && |Insert(s, r)| == |s| + 1
    ensures forall x :: x in Insert(s, r) <==> x in s || x == r
  {
    if s != [] && !Below(KeyOf(s[0]), KeyOf(r)) {
      InsertSorts(s[1..], r);
      assert s == [s[0]] + s[1..];
      var rest := Insert(s[1..], r);
      forall j | 0 <= j < |rest| ensures Below(KeyOf(rest[j]), KeyOf(s[0])) {
        assert rest[j] in rest;
        if rest[j] in s[1..] {
          var k :| 0 <= k < |s[1..]| && s[1..][k] == rest[j];
          assert s[k + 1] == rest[j];
        }
      }
    }
  }

  /** The listing is sorted and holds exactly the matching rows. */
  lemma {:induction false} ListingIsSorted(rows: Rows, room: RoomId, bound: Option<Key>)
    requires UniqueIds(rows)
    ensures Descending(Listing(rows, room, bound))
    ensures forall r :: r in Listing(rows, room, bound) <==> r in rows && Matches(r, room, bound)
  {
    if rows != [] {
      var n := |rows| - 1;
      var before, r := rows[..n], rows[n];
      assert rows == before + [r];
      ListingIsSorted(before, room, bound);
      var rest := Listing(before, room, bound);
      forall i | 0 <= i < |rest| ensures rest[i].id != r.id {
        assert rest[i] in before;
      }
      if Matches(r, room, bound) {
        InsertSorts(rest, r);
      }
    }
  }

  /** There is only one way to sort: descending sequences with the same rows are equal. */
  lemma {:induction false} SortedIsUnique(a: seq<Row>, b: seq<Row>)
    requires Descending(a) && Descending(b) && forall r :: r in a <==> r in b
    ensures a == b
  {
    assert a != [] ==> a[0] in b;
    assert b != [] ==> b[0] in a;
    if a != [] && b != [] {
      assert a[0] == b[0];
      forall r ensures r in a[1..] <==> r in b[1..] {
        InTail(a, r);
        InTail(b, r);
      }
      SortedIsUnique(a[1..], b[1..]);
      assert a == [a[0]] + a[1..] && b == [b[0]] + b[1..];
    }
  }

  lemma InTail(s: seq<Row>, r: Row)
    requires Descending(s) && s != []
    ensures r in s[1..] <==> r in s && r != s[0]
  {
    if r in s && r != s[0] {
      var k :| 0 <= k < |s| && s[k] == r;
      assert s[1..][k - 1] == r;
    }
  }

  /** Bounding by the key of row i of a listing gives the rest of the listing. */
  lemma ListingBelow(rows: Rows, room: RoomId, bound: Option<Key>, i: nat)
    requires UniqueIds(rows) && i < |Listing(rows, room, bound)|
    ensures var l := Listing(rows, room, bound); Listing(rows, room, Some(KeyOf(l[i]))) == l[i + 1..]
  {
    ListingIsSorted(rows, room, bound);
    var l := Listing(rows, room, bound);
    ListingIsSorted(rows, room, Some(KeyOf(l[i])));
    var below := Listing(rows, room, Some(KeyOf(l[i])));
    forall r ensures r in below <==> r in l[i + 1..] {
      if r in below {
        assert l[i] in rows;
        assert r in l;
        var k :| 0 <= k < |l| && l[k] == r;
        assert k > i;
        assert l[i + 1..][k - i - 1] == r;
      }
      if r in l[i + 1..] {
        var k :| 0 <= k < |l[i + 1..]| && l[i + 1..][k] == r;
        assert r == l[i + 1 + k] && r in l;
      }
    }
    SortedIsUnique(below, l[i + 1..]);
  }

  // ---------- reading ----------

  datatype ReplyPreview = ReplyPreview(id: Id, sender: UserId, kind: MessageType, preview: Preview)

  datatype Message = Message(id: Id, room: RoomId, sender: UserId, kind: MessageType, content: RepoContent,
                             replyTo: Option<ReplyPreview>, deleted: bool, at: nat)

  datatype ReadError = InvalidCursor | NotFound | Undecodable(error: DecodeError)

  /** LEFT JOIN messages rm ON rm.id = m.reply_to_id, and buildReplyPreview. */
  function PreviewOf(rows: Rows, r: Row): Option<ReplyPreview> {
    if r.replyTo.None? then None
    else
      match Find(rows, r.replyTo.value)
      case None => None
      case Some(rm) => Some(ReplyPreview(rm.id, rm.sender, rm.kind, BuildPreview(rm.kind, rm.content, rm.deleted)))
  }

  function ReadRow(rows: Rows, r: Row): Result<Message, ReadError> {
    match Unmarshal(r.kind, r.content)
    case Err(e) => Err(Undecodable(e))
    case Ok(content) => Ok(Message(r.id, r.room, r.sender, r.kind, content, PreviewOf(rows, r), r.deleted, r.at))
  }

  /** All rows, or the first error. */
  function ReadAll(rows: Rows, selected: seq<Row>): Result<seq<Message>, ReadError> {
    if selected == [] then Ok([])
    else
      var before :- ReadAll(rows, selected[..|selected| - 1]);
      var last :- ReadRow(rows, selected[|selected| - 1]);
      Ok(before + [last])
  }

  function Take<T>(s: seq<T>, n: nat): seq<T> {
    if n < |s| then s[..n] else s
  }

  datatype Page = Page(messages: seq<Message>, next: Option<Id>)

  function BoundOf(rows: Rows, cursor: Option<Id>): Option<Key> {
    if cursor.None? then None
    else
      match Find(rows, cursor.value)
      case None => None
      case Some(r) => Some(KeyOf(r))
  }

  /** One page: one row more than the limit is read, and also has to decode, to see if there is a next page. */
  function ReadPage(rows: Rows, room: RoomId, cursor: Option<Id>, limit: nat): Result<Page, ReadError>
    requires limit >= 1
  {
    if cursor.Some? && Find(rows, cursor.value).None? then Err(InvalidCursor)
    else
      var messages :- ReadAll(rows, Take(Listing(rows, room, BoundOf(rows, cursor)), limit + 1));
      if |messages| > limit then Ok(Page(messages[..limit], Some(messages[limit - 1].id)))
      else Ok(Page(messages, None))
  }

  function KeyOfMessage(m: Message): Key {
    Key(m.at, m.id)
  }

  lemma {:induction false} ReadAllReads(rows: Rows, selected: seq<Row>)
    ensures var r := ReadAll(rows, selected);
            && (r.Ok? <==> forall i :: 0 <= i < |selected| ==> ReadRow(rows, selected[i]).Ok?)
            && (r.Ok? ==> |r.value| == |selected|)
            && (r.Ok? ==> forall i :: 0 <= i < |selected| ==> ReadRow(rows, selected[i]) == Ok(r.value[i]))
  {
    if selected != [] {
      ReadAllReads(rows, selected[..|selected| - 1]);
    }
  }

  lemma {:induction false} ReadAllPrefix(rows: Rows, selected: seq<Row>, n: nat)
    requires n <= |selected| && ReadAll(rows, selected[..n]).Err?
    ensures ReadAll(rows, selected) == ReadAll(rows, selected[..n])
    decreases |selected|
  {
    if n < |selected| {
      var most := selected[..|selected| - 1];
      assert most[..n] == selected[..n];
      ReadAllPrefix(rows, most, n);
    } else {
      assert selected[..n] == selected;
    }
  }

  /** A page carries the first rows of the listing, and a cursor exactly if there are more. */
  lemma PageIsPrefix(rows: Rows, room: RoomId, cursor: Option<Id>, limit: nat)
    requires limit >= 1 && ReadPage(rows, room, cursor, limit).Ok?
    ensures var p := ReadPage(rows, room, cursor, limit).value;
            var l := Listing(rows, room, BoundOf(rows, cursor));
            && |p.messages| == |Take(l, limit)|
            && (forall i :: 0 <= i < |p.messages| ==> ReadRow(rows, l[i]) == Ok(p.messages[i]))
            && p.next == if |l| > limit then Some(l[limit - 1].id) else None
  {
    ReadAllReads(rows, Take(Listing(rows, room, BoundOf(rows, cursor)), limit + 1));
  }

  // ---------- writing ----------

  function Deleted(rows: Rows, id: Id): Rows {
    seq(|rows|, i requires 0 <= i < |rows| => if rows[i].id == id then rows[i].(deleted := true) else rows[i])
  }

  /** UPDATE ... SET deleted_at WHERE id = ... AND deleted_at IS NULL. */
  function SoftDelete(rows: Rows, id: Id): Result<Rows, ReadError> {
    match Find(rows, id)
    case None => Err(NotFound)
    case Some(r) => if r.deleted then Err(NotFound) else Ok(Deleted(rows, id))
  }

  /** Later tables: rows may be added and live rows soft-deleted; nothing else happens to a row. */
  ghost predicate Evolves(before: Rows, after: Rows) {
    && UniqueIds(after)
    && |before| <= |after|
    && forall i :: 0 <= i < |before| ==> after[i] == before[i] || after[i] == before[i].(deleted := true)
  }

  lemma InsertEvolves(rows: Rows, r: Row)
    requires UniqueIds(rows) && Find(rows, r.id).None?
    ensures Evolves(rows, rows + [r])
  {
  }

  lemma SoftDeleteEvolves(rows: Rows, id: Id)
    requires UniqueIds(rows)
    ensures SoftDelete(rows, id).Ok? ==> Evolves(rows, SoftDelete(rows, id).value)
  {
  }

  lemma EvolvesTransitive(a: Rows, b: Rows, c: Rows)
    requires Evolves(a, b) && Evolves(b, c)
    ensures Evolves(a, c)
  {
  }

  // ---------- the repository ----------

  class Repository {
    var rows: Rows

    ghost predicate Valid()
      reads this
    {
      UniqueIds(rows)
    }

    constructor ()
      ensures Valid() && rows == []
    {
      rows := [];
    }

    /** `id` and `at` are what the database generates for the row. */
    method CreateMessage(room: RoomId, sender: UserId, kind: MessageType, content: RepoContent, replyTo: Option<Id>,
                         id: Id, at: nat) returns (m: Message)
      requires Valid() && Find(rows, id).None?
      modifies this
      ensures Valid() && Evolves(old(rows), rows)
      ensures rows == old(rows) + [Row(id, room, sender, kind, Marshal(content), replyTo, false, at)]
      ensures m == Message(id, room, sender, kind, content, None, false, at)
    {
      var contentJSON := Marshal(content);
      rows := rows + [Row(id, room, sender, kind, contentJSON, replyTo, false, at)];
      m := Message(id, room, sender, kind, content, None, false, at);
    }

    method SoftDeleteMessage(id: Id) returns (r: Result<(), ReadError>)
      requires Valid()
      modifies this
      ensures Valid() && Evolves(old(rows), rows)
      ensures match SoftDelete(old(rows), id)
              case Ok(after) => rows == after && r == Ok(())
              case Err(e) => rows == old(rows) && r == Err(e)
    {
      var i := 0;
      while i < |rows| && !(rows[i].id == id && !rows[i].deleted)
        invariant 0 <= i <= |rows| && rows == old(rows)
        invariant forall k :: 0 <= k < i ==> !(rows[k].id == id && !rows[k].deleted)
      {
        i := i + 1;
      }
      if i == |rows| {
        return Err(NotFound);
      }
      FindsItsRow(rows, i);
      rows := rows[i := rows[i].(deleted := true)];
      assert rows == Deleted(old(rows), id);
      return Ok(());
    }

    method GetMessageByID(id: Id) returns (r: Result<Message, ReadError>)
      ensures r == if Find(rows, id).None? then Err(NotFound) else ReadRow(rows, Find(rows, id).value)
    {
      var row := Find(rows, id);
      if row.None? {
        return Err(NotFound);
      }
      var content := Unmarshal(row.value.kind, row.value.content);
      if content.Err? {
        return Err(Undecodable(content.error));
      }
      var m := row.value;
      return Ok(Message(m.id, m.room, m.sender, m.kind, content.value, PreviewOf(rows, m), m.deleted, m.at));
    }

    method GetMessagesByRoomID(room: RoomId, cursor: Option<Id>, limit: nat) returns (r: Result<Page, ReadError>)
      requires limit >= 1
      ensures r == ReadPage(rows, room, cursor, limit)
    {
      if cursor.Some? && Find(rows, cursor.value).None? {
        return Err(InvalidCursor);
      }
      var selected := Take(Listing(rows, room, BoundOf(rows, cursor)), limit + 1);
      var messages: seq<Message> := [];
      for i := 0 to |selected|
        invariant ReadAll(rows, selected[..i]) == Ok(messages)
      {
        assert selected[..i + 1][..i] == selected[..i];
        var content := Unmarshal(selected[i].kind, selected[i].content);
        if content.Err? {
          assert ReadAll(rows, selected[..i + 1]) == Err(Undecodable(content.error));
          ReadAllPrefix(rows, selected, i + 1);
          return Err(Undecodable(content.error));
        }
        var m := selected[i];
        var msg := Message(m.id, m.room, m.sender, m.kind, content.value, PreviewOf(rows, m), m.deleted, m.at);
        messages := messages + [msg];
      }
      assert selected[..|selected|] == selected;
      var next := None;
      if |messages| > limit {
        messages := messages[..limit];
        next := Some(messages[limit - 1].id);
      }
      return Ok(Page(messages, next));
    }
  }
}
