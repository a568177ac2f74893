/**
 The WebSocket hub: three maps that only the Run loop changes, and the relation they stand for.

 `rooms[room][user]` lists a user's connections in a room, `userIDs` gives the user of a connection
 and `connRooms` the rooms of a connection. Together they represent a set of subscriptions, pairs of
 a connection and a room.
 */
module Hub {
  type Conn = int
  type UserId = int
  type RoomId = int
  type Rooms = map<RoomId, map<UserId, seq<Conn>>>
  type Subscriptions = set<(Conn, RoomId)>

  /** The empty string, which a lookup of an unknown connection yields. */
  const NO_USER: UserId := 0

  // ---------- requests and what they mean ----------

  /** Broadcast carries the connections whose outbound queue takes the data at that moment. */
  datatype Request =
    | Register(conn: Conn, user: UserId, room: RoomId)
    | Unregister(conn: Conn, room: RoomId)
    | Disconnect(conn: Conn)
    | Broadcast(room: RoomId, accepting: set<Conn>)
    | RoomCount(room: RoomId)

  function Meaning(subs: Subscriptions, r: Request): Subscriptions {
    match r
    case Register(c, _, room) => subs + {(c, room)}
    case Unregister(c, room) => subs - {(c, room)}
    case Disconnect(c) => set s | s in subs && s.0 != c
    case Broadcast(_, _) => subs
    case RoomCount(_) => subs
  }

  function Fold(subs: Subscriptions, picks: seq<Request>): Subscriptions {
    if picks == [] then subs else Meaning(Fold(subs, picks[..|picks| - 1]), picks[|picks| - 1])
  }

  function Subscribers(subs: Subscriptions, room: RoomId): set<Conn> {
    set s | s in subs && s.1 == room :: s.0
  }

  predicate Cancels(r: Request, c: Conn, room: RoomId) {
    r == Unregister(c, room) || r == Disconnect(c)
  }

  /** Nothing from position i on takes the subscription away. */
  ghost predicate Kept(picks: seq<Request>, i: nat, c: Conn, room: RoomId) {
    forall j :: i <= j < |picks| ==> !Cancels(picks[j], c, room)
  }

  predicate Subscribes(r: Request, c: Conn, room: RoomId) {
    r.Register? && r.conn == c && r.room == room
  }

  /**
   A connection is subscribed to a room exactly if it was registered there (or was from the start)
   and no Unregister or Disconnect was picked later. A Register that the client sent before its
   Disconnect but that the loop picks after it therefore leaves the subscription behind.
   */
  lemma {:induction false} LastRequestDecides(subs: Subscriptions, picks: seq<Request>, c: Conn, room: RoomId)
    ensures (c, room) in Fold(subs, picks) <==>
            || ((c, room) in subs && Kept(picks, 0, c, room))
            || (exists i :: 0 <= i < |picks| && Subscribes(picks[i], c, room) && Kept(picks, i, c, room))
  {
    if picks != [] {
      var n := |picks| - 1;
      var before := picks[..n];
      LastRequestDecides(subs, before, c, room);
      assert Fold(subs, picks) == Meaning(Fold(subs, before), picks[n]);
      if !Cancels(picks[n], c, room) {
        assert Kept(before, 0, c, room) <==> Kept(picks, 0, c, room);
        assert forall i :: 0 <= i < n ==> (Kept(before, i, c, room) <==> Kept(picks, i, c, room));
        if exists i :: 0 <= i < n && Subscribes(before[i], c, room) && Kept(before, i, c, room) {
          var i :| 0 <= i < n && Subscribes(before[i], c, room) && Kept(before, i, c, room);
          assert Subscribes(picks[i], c, room) && Kept(picks, i, c, room);
        }
        if exists i :: 0 <= i < |picks| && Subscribes(picks[i], c, room) && Kept(picks, i, c, room) {
          var i :| 0 <= i < |picks| && Subscribes(picks[i], c, room) && Kept(picks, i, c, room);
          if i < n {
            assert Subscribes(before[i], c, room);
          }
        }
        if Subscribes(picks[n], c, room) {
          assert Kept(picks, n, c, room);
        }
      }
    }
  }

  /** Once a Disconnect has been picked, the connection is nowhere until a later Register is picked. */
  lemma DisconnectedUntilRegistered(subs: Subscriptions, picks: seq<Request>, i: nat, c: Conn, room: RoomId)
    requires i < |picks| && picks[i] == Disconnect(c)
    requires forall j :: i < j < |picks| && picks[j].Register? ==> picks[j].conn != c
    ensures (c, room) !in Fold(subs, picks)
  {
    LastRequestDecides(subs, picks, c, room);
    assert Cancels(picks[i], c, room);
  }

  /**
   A client subscribes and then goes away. The two requests wait in different channels, so either may
   be picked first; the subscription stays behind exactly if the Disconnect is.
   */
  lemma PickOrderMatters(subs: Subscriptions, c: Conn, user: UserId, room: RoomId, picks: seq<Request>)
    requires picks == [Register(c, user, room), Disconnect(c)] || picks == [Disconnect(c), Register(c, user, room)]
    ensures (c, room) in Fold(subs, picks) <==> picks[0] == Disconnect(c)
  {
    assert picks[..1][..0] == [];
    assert Fold(subs, picks) == Meaning(Fold(subs, picks[..1]), picks[1]);
  }

  // ---------- the index maps ----------

  predicate NoDuplicates(s: seq<Conn>) {
    forall i, j :: 0 <= i < j < |s| ==> s[i] != s[j]
  }

  /** h.rooms[roomID][userID], where a missing key reads as an empty slice. */
  function Conns(rooms: Rooms, room: RoomId, user: UserId): seq<Conn> {
    if room in rooms && user in rooms[room] then rooms[room][user] else []
  }

  /** No empty slice or map is left behind. */
  ghost predicate NothingEmpty(rooms: Rooms) {
    forall r :: r in rooms ==> rooms[r] != map[] && forall u :: u in rooms[r] ==> rooms[r][u] != []
  }

  predicate Listed(rooms: Rooms, room: RoomId, user: UserId, c: Conn) {
    c in Conns(rooms, room, user)
  }

  /** The nested map lists exactly the subscriptions, each once and under its connection's user. */
  ghost predicate Indexes(rooms: Rooms, users: map<Conn, UserId>, subs: Subscriptions) {
    && NothingEmpty(rooms)
    && (forall r, u :: NoDuplicates(Conns(rooms, r, u)))
    && (forall r, u, c :: Listed(rooms, r, u, c) <==> (c, r) in subs && c in users && users[c] == u)
  }

  /** rooms' differs from rooms only in the slice of one user in one room. */
  ghost predicate OneSliceBecomes(rooms: Rooms, rooms': Rooms, room: RoomId, user: UserId, slice: seq<Conn>) {
    && NothingEmpty(rooms')
    && Conns(rooms', room, user) == slice
    && forall r, u :: (r, u) != (room, user) ==> Conns(rooms', r, u) == Conns(rooms, r, u)
  }

  function Attached(rooms: Rooms, room: RoomId, user: UserId, conn: Conn): Rooms {
    var byUser := if room in rooms then rooms[room] else map[];
    rooms[room := byUser[user := Conns(rooms, room, user) + [conn]]]
  }

  /** The map of the room made first if there is none, and the slice extended then. */
  lemma AttachedInTwoSteps(rooms: Rooms, room: RoomId, user: UserId, conn: Conn)
    ensures var rooms1 := if room in rooms then rooms else rooms[room := map[]];
            rooms1[room := rooms1[room][user := Conns(rooms, room, user) + [conn]]] == Attached(rooms, room, user, conn)
  {
  }

  lemma AttachedSlice(rooms: Rooms, room: RoomId, user: UserId, conn: Conn)
    requires NothingEmpty(rooms)
    ensures OneSliceBecomes(rooms, Attached(rooms, room, user, conn), room, user, Conns(rooms, room, user) + [conn])
  {
    var rooms' := Attached(rooms, room, user, conn);
    assert user in rooms'[room];
  }

  lemma AttachedIndexes(rooms: Rooms, users: map<Conn, UserId>, subs: Subscriptions, rooms': Rooms, room: RoomId,
                        user: UserId, conn: Conn)
    requires Indexes(rooms, users, subs) && !Listed(rooms, room, user, conn)
    requires OneSliceBecomes(rooms, rooms', room, user, Conns(rooms, room, user) + [conn])
    requires conn in users ==> users[conn] == user
    requires forall r :: (conn, r) in subs ==> conn in users
    ensures Indexes(rooms', users[conn := user], subs + {(conn, room)})
  {
    var users', subs' := users[conn := user], subs + {(conn, room)};
    forall r, u, c
      ensures Listed(rooms', r, u, c) <==> (c, r) in subs' && c in users' && users'[c] == u
    {
      assert Listed(rooms, r, u, c) <==> (c, r) in subs && c in users && users[c] == u;
      if (r, u) == (room, user) {
        assert Listed(rooms', r, u, c) <==> Listed(rooms, r, u, c) || c == conn;
      } else {
        assert Listed(rooms', r, u, c) <==> Listed(rooms, r, u, c);
      }
    }
    forall r, u ensures NoDuplicates(Conns(rooms', r, u)) {
      assert NoDuplicates(Conns(rooms, r, u));
    }
  }

  /** The slice without its element at i, and the keys dropped that this leaves empty. */
  function Detached(rooms: Rooms, room: RoomId, user: UserId, i: nat): Rooms
    requires i < |Conns(rooms, room, user)|
  {
    var left := RemoveAt(Conns(rooms, room, user), i);
    var byUser := if left == [] then rooms[room] - {user} else rooms[room][user := left];
    if byUser == map[] then rooms - {room} else rooms[room := byUser]
  }

  function RemoveAt(s: seq<Conn>, i: nat): seq<Conn>
    requires i < |s|
  {
    s[..i] + s[i + 1..]
  }

  lemma RemoveAtDropsOne(s: seq<Conn>, i: nat)
    requires i < |s| && NoDuplicates(s)
    ensures NoDuplicates(RemoveAt(s, i))
    ensures forall c :: c in RemoveAt(s, i) <==> c in s && c != s[i]
  {
    var left := RemoveAt(s, i);
    forall c | c in s && c != s[i] ensures c in left {
      var k :| 0 <= k < |s| && s[k] == c;
      assert c == if k < i then left[k] else left[k - 1];
    }
  }

  lemma DetachedSlice(rooms: Rooms, room: RoomId, user: UserId, i: nat)
    requires NothingEmpty(rooms) && i < |Conns(rooms, room, user)|
    ensures OneSliceBecomes(rooms, Detached(rooms, room, user, i), room, user, RemoveAt(Conns(rooms, room, user), i))
  {
    var left := RemoveAt(Conns(rooms, room, user), i);
    var byUser := if left == [] then rooms[room] - {user} else rooms[room][user := left];
    var rooms' := Detached(rooms, room, user, i);
    forall r, u | (r, u) != (room, user) ensures Conns(rooms', r, u) == Conns(rooms, r, u) {
      if r == room {
        assert u in byUser <==> u in rooms[room];
      }
    }
  }

  lemma DetachedIndexes(rooms: Rooms, users: map<Conn, UserId>, subs: Subscriptions, rooms': Rooms, room: RoomId,
                        user: UserId, i: nat)
    requires Indexes(rooms, users, subs) && i < |Conns(rooms, room, user)|
    requires OneSliceBecomes(rooms, rooms', room, user, RemoveAt(Conns(rooms, room, user), i))
    ensures Indexes(rooms', users, subs - {(Conns(rooms, room, user)[i], room)})
  {
    var conns := Conns(rooms, room, user);
    RemoveAtDropsOne(conns, i);
    assert Listed(rooms, room, user, conns[i]);
    forall r, u, c
      ensures Listed(rooms', r, u, c) <==> (c, r) in subs - {(conns[i], room)} && c in users && users[c] == u
    {
      assert Listed(rooms, r, u, c) <==> (c, r) in subs && c in users && users[c] == u;
      if (r, u) == (room, user) {
        assert Listed(rooms', r, u, c) <==> Listed(rooms, r, u, c) && c != conns[i];
      } else {
        assert Listed(rooms', r, u, c) <==> Listed(rooms, r, u, c);
      }
    }
    forall r, u ensures NoDuplicates(Conns(rooms', r, u)) {
      assert NoDuplicates(Conns(rooms, r, u));
    }
  }

  /** The next key of a map iteration: any of those left. */
  method Pick<T>(s: set<T>) returns (x: T)
    requires s != {}
    ensures x in s
  {
    x :| x in s;
  }

  // ---------- the three maps together ----------

  function SubsOf(connRooms: map<Conn, set<RoomId>>): Subscriptions {
    set c, r | c in connRooms && r in connRooms[c] :: (c, r)
  }

  /** connRooms and rooms are inverse indexes and nothing is left over in any map. */
  ghost predicate Consistent(rooms: Rooms, userIDs: map<Conn, UserId>, connRooms: map<Conn, set<RoomId>>) {
    && userIDs.Keys == connRooms.Keys
    && (forall c :: c in connRooms ==> connRooms[c] != {} && userIDs[c] != NO_USER)
    && Indexes(rooms, userIDs, SubsOf(connRooms))
  }

  function RoomsOf(connRooms: map<Conn, set<RoomId>>, conn: Conn): set<RoomId> {
    if conn in connRooms then connRooms[conn] else {}
  }

  lemma SubsOfAdd(connRooms: map<Conn, set<RoomId>>, conn: Conn, room: RoomId)
    ensures SubsOf(connRooms[conn := RoomsOf(connRooms, conn) + {room}]) == SubsOf(connRooms) + {(conn, room)}
  {
  }

  lemma SubsOfRemove(connRooms: map<Conn, set<RoomId>>, conn: Conn, room: RoomId)
    requires conn in connRooms
    ensures var left := connRooms[conn] - {room};
            SubsOf(if left == {} then connRooms - {conn} else connRooms[conn := left])
            == SubsOf(connRooms) - {(conn, room)}
  {
  }

  lemma AlreadyListed(rooms: Rooms, userIDs: map<Conn, UserId>, connRooms: map<Conn, set<RoomId>>,
                      conn: Conn, user: UserId, room: RoomId)
    requires Consistent(rooms, userIDs, connRooms) && conn in Conns(rooms, room, user)
    ensures userIDs[conn := user] == userIDs && SubsOf(connRooms) + {(conn, room)} == SubsOf(connRooms)
  {
    assert Listed(rooms, room, user, conn);
  }

  lemma AttachKeeps(rooms: Rooms, userIDs: map<Conn, UserId>, connRooms: map<Conn, set<RoomId>>,
                    conn: Conn, user: UserId, room: RoomId)
    requires Consistent(rooms, userIDs, connRooms) && conn !in Conns(rooms, room, user)
    requires user != NO_USER && (conn in userIDs ==> userIDs[conn] == user)
    ensures var connRooms' := connRooms[conn := RoomsOf(connRooms, conn) + {room}];
            && Consistent(Attached(rooms, room, user, conn), userIDs[conn := user], connRooms')
            && SubsOf(connRooms') == SubsOf(connRooms) + {(conn, room)}
  {
    AttachedSlice(rooms, room, user, conn);
    AttachedIndexes(rooms, userIDs, SubsOf(connRooms), Attached(rooms, room, user, conn), room, user, conn);
    SubsOfAdd(connRooms, conn, room);
  }

  /** Dropping the user of a connection without subscriptions does not matter to the index. */
  lemma ForgetUser(rooms: Rooms, users: map<Conn, UserId>, subs: Subscriptions, conn: Conn)
    requires Indexes(rooms, users, subs) && forall r :: (conn, r) !in subs
    ensures Indexes(rooms, users - {conn}, subs)
  {
  }

  /** The two deletions at the end of removeConn. */
  function DropEmpty(rooms: Rooms, room: RoomId, user: UserId): Rooms {
    var rooms1 :=
      if room in rooms && |Conns(rooms, room, user)| == 0 then rooms[room := rooms[room] - {user}] else rooms;
    if room in rooms1 && |rooms1[room]| == 0 then rooms1 - {room} else rooms1
  }

  lemma NothingToDrop(rooms: Rooms, room: RoomId, user: UserId)
    requires NothingEmpty(rooms)
    ensures DropEmpty(rooms, room, user) == rooms
  {
    if room in rooms && |Conns(rooms, room, user)| == 0 {
      assert rooms[room] - {user} == rooms[room];
    }
  }

  lemma DropAfterRemoval(rooms: Rooms, room: RoomId, user: UserId, i: nat)
    requires NothingEmpty(rooms) && i < |Conns(rooms, room, user)|
    ensures var left := RemoveAt(Conns(rooms, room, user), i);
            DropEmpty(rooms[room := rooms[room][user := left]], room, user) == Detached(rooms, room, user, i)
  {
    var left := RemoveAt(Conns(rooms, room, user), i);
    var rooms1 := rooms[room := rooms[room][user := left]];
    if left == [] {
      assert rooms1[room] - {user} == rooms[room] - {user};
      assert rooms1[room := rooms1[room] - {user}] == rooms[room := rooms[room] - {user}];
      assert rooms[room := rooms[room] - {user}] - {room} == rooms - {room};
    } else {
      assert user in rooms1[room];
    }
  }

  /** A cut slice with what it leaves empty dropped indexes one subscription fewer. */
  lemma RemovalIndexes(rooms: Rooms, users: map<Conn, UserId>, subs: Subscriptions, room: RoomId, user: UserId, i: nat)
    requires Indexes(rooms, users, subs) && i < |Conns(rooms, room, user)|
    ensures var cut := rooms[room := rooms[room][user := RemoveAt(Conns(rooms, room, user), i)]];
            Indexes(DropEmpty(cut, room, user), users, subs - {(Conns(rooms, room, user)[i], room)})
  {
    DropAfterRemoval(rooms, room, user, i);
    DetachedSlice(rooms, room, user, i);
    DetachedIndexes(rooms, users, subs, Detached(rooms, room, user, i), room, user, i);
  }

  /** Without the connection there is nothing to cut or to drop. */
  lemma AbsenceIndexes(rooms: Rooms, users: map<Conn, UserId>, subs: Subscriptions, room: RoomId, user: UserId,
                       conn: Conn)
    requires Indexes(rooms, users, subs) && conn !in Conns(rooms, room, user) && conn in users && users[conn] == user
    ensures Indexes(DropEmpty(rooms, room, user), users, subs - {(conn, room)})
  {
    assert !Listed(rooms, room, user, conn);
    assert subs - {(conn, room)} == subs;
    NothingToDrop(rooms, room, user);
  }

  // ---------- delivery ----------

  function Elements(s: seq<Conn>): set<Conn> {
    set c | c in s
  }

  /** Every target got the data once, nobody else did, and exactly the full queues were closed. */
  ghost predicate Delivered(sent: seq<Conn>, closed: seq<Conn>, targets: set<Conn>, accepting: set<Conn>) {
    && NoDuplicates(sent) && (forall c :: c in sent <==> c in targets)
    && NoDuplicates(closed) && (forall c :: c in closed <==> c in targets && c !in accepting)
  }

  lemma DeliveredJoin(sent: seq<Conn>, closed: seq<Conn>, targets: set<Conn>,
                      sent': seq<Conn>, closed': seq<Conn>, targets': set<Conn>, accepting: set<Conn>)
    requires Delivered(sent, closed, targets, accepting) && Delivered(sent', closed', targets', accepting)
    requires targets !! targets'
    ensures Delivered(sent + sent', closed + closed', targets + targets', accepting)
  {
    NoDuplicatesJoin(sent, sent');
    NoDuplicatesJoin(closed, closed');
  }

  lemma NoDuplicatesJoin(a: seq<Conn>, b: seq<Conn>)
    requires NoDuplicates(a) && NoDuplicates(b) && forall c :: c in a ==> c !in b
    ensures NoDuplicates(a + b)
  {
    forall i, j | 0 <= i < j < |a + b| ensures (a + b)[i] != (a + b)[j] {
      if i < |a| <= j {
        assert a[i] in a && b[j - |a|] in b;
      }
    }
  }

  /** The inner loop of sendToRoom: one user's connections, in order. */
  method SendToConns(conns: seq<Conn>, accepting: set<Conn>) returns (sent: seq<Conn>, closed: seq<Conn>)
    requires NoDuplicates(conns)
    ensures sent == conns && Delivered(sent, closed, Elements(conns), accepting)
  {
    sent, closed := [], [];
    for i := 0 to |conns|
      invariant sent == conns[..i]
      invariant Delivered(sent, closed, Elements(conns[..i]), accepting)
    {
      sent := sent + [conns[i]];
      if conns[i] !in accepting {
        closed := closed + [conns[i]];
      }
      assert conns[..i + 1] == conns[..i] + [conns[i]];
      assert conns[i] !in conns[..i];
      assert NoDuplicates(sent);
    }
    assert conns[..|conns|] == conns;
  }

  datatype Answer = Nothing | Deliveries(sent: seq<Conn>, closed: seq<Conn>) | Count(n: nat)

  ghost function DistinctUsers(subs: Subscriptions, room: RoomId, userOf: Conn -> UserId): set<UserId> {
    set s | s in subs && s.1 == room :: userOf(s.0)
  }

  /** What a picked request gets back, in terms of the subscriptions at that moment. */
  ghost predicate RightAnswer(r: Request, a: Answer, subs: Subscriptions, userOf: Conn -> UserId) {
    match r
    case Broadcast(room, accepting) => a.Deliveries? && Delivered(a.sent, a.closed, Subscribers(subs, room), accepting)
    case RoomCount(room) => a.Count? && a.n == |DistinctUsers(subs, room, userOf)|
    case _ => a.Nothing?
  }

  /** The answers so far are right, each for the moment of its pick. */
  ghost predicate AllRight(picks: seq<Request>, answers: seq<Answer>, subs: Subscriptions, userOf: Conn -> UserId) {
    && |answers| <= |picks|
    && forall i :: 0 <= i < |answers| ==> RightAnswer(picks[i], answers[i], Fold(subs, picks[..i]), userOf)
  }

  lemma OneMoreAnswer(picks: seq<Request>, answers: seq<Answer>, subs: Subscriptions, userOf: Conn -> UserId,
                      answer: Answer)
    requires AllRight(picks, answers, subs, userOf) && |answers| < |picks|
    requires RightAnswer(picks[|answers|], answer, Fold(subs, picks[..|answers|]), userOf)
    ensures AllRight(picks, answers + [answer], subs, userOf)
    ensures Fold(subs, picks[..|answers| + 1]) == Meaning(Fold(subs, picks[..|answers|]), picks[|answers|])
  {
    var i := |answers|;
    assert picks[..i + 1][..i] == picks[..i];
  }

  // ---------- the hub ----------

  class Hub {
    var rooms: Rooms
    var userIDs: map<Conn, UserId>
    var connRooms: map<Conn, set<RoomId>>

    ghost function Subs(): Subscriptions
      reads this
    {
      SubsOf(connRooms)
    }

    ghost predicate Valid()
      reads this
    {
      Consistent(rooms, userIDs, connRooms)
    }

    constructor ()
      ensures Valid() && Subs() == {}
    {
      rooms, userIDs, connRooms := map[], map[], map[];
    }

    /** The handler always registers a connection with the one user id its ticket gave it. */
    method AddConn(conn: Conn, userID: UserId, roomID: RoomId)
      requires Valid()
      requires userID != NO_USER && (conn in userIDs ==> userIDs[conn] == userID)
      modifies this
      ensures Valid() && Subs() == old(Subs()) + {(conn, roomID)}
      ensures userIDs == old(userIDs)[conn := userID]
    {
      userIDs := userIDs[conn := userID];
      if roomID !in rooms {
        rooms := rooms[roomID := map[]];
      }
      var userConns := if userID in rooms[roomID] then rooms[roomID][userID] else [];
      assert userConns == Conns(old(rooms), roomID, userID);
      if conn in userConns {
        AlreadyListed(old(rooms), old(userIDs), old(connRooms), conn, userID, roomID);
        assert rooms == old(rooms);
        return;
      }
      rooms := rooms[roomID := rooms[roomID][userID := userConns + [conn]]];
      if conn !in connRooms {
        connRooms := connRooms[conn := {}];
      }
      connRooms := connRooms[conn := connRooms[conn] + {roomID}];
      AttachedInTwoSteps(old(rooms), roomID, userID, conn);
      assert connRooms == old(connRooms)[conn := RoomsOf(old(connRooms), conn) + {roomID}];
      AttachKeeps(old(rooms), old(userIDs), old(connRooms), conn, userID, roomID);
    }

    /** The loop over a slice: the first element that is the connection is cut out. */
    method CutOut(conn: Conn, userID: UserId, roomID: RoomId) returns (i: nat)
      modifies this`rooms
      ensures var conns := Conns(old(rooms), roomID, userID);
              if i < |conns|
              then conns[i] == conn && rooms == old(rooms)[roomID := old(rooms)[roomID][userID := RemoveAt(conns, i)]]
              else conn !in conns && rooms == old(rooms)
    {
      var conns := Conns(rooms, roomID, userID);
      i := 0;
      while i < |conns| && conns[i] != conn
        invariant 0 <= i <= |conns| && conn !in conns[..i]
      {
        i := i + 1;
      }
      assert i == |conns| ==> conns[..i] == conns;
      if i < |conns| {
        rooms := rooms[roomID := rooms[roomID][userID := conns[..i] + conns[i + 1..]]];
      }
    }

    /** The two conditional deletions after the loop. */
    method DropEmptied(userID: UserId, roomID: RoomId)
      modifies this`rooms
      ensures rooms == DropEmpty(old(rooms), roomID, userID)
    {
      if roomID in rooms && |Conns(rooms, roomID, userID)| == 0 {
        rooms := rooms[roomID := rooms[roomID] - {userID}];
      }
      if roomID in rooms && |rooms[roomID]| == 0 {
        rooms := rooms - {roomID};
      }
    }

    /** The part removeConn and disconnectAll share: take the connection out of rooms[roomID][userID]. */
    method Detach(conn: Conn, userID: UserId, roomID: RoomId, ghost subs: Subscriptions)
      requires Indexes(rooms, userIDs, subs) && conn in userIDs && userIDs[conn] == userID
      modifies this`rooms
      ensures Indexes(rooms, userIDs, subs - {(conn, roomID)})
    {
      var i := CutOut(conn, userID, roomID);
      DropEmptied(userID, roomID);
      if i < |Conns(old(rooms), roomID, userID)| {
        RemovalIndexes(old(rooms), userIDs, subs, roomID, userID, i);
      } else {
        AbsenceIndexes(old(rooms), userIDs, subs, roomID, userID, conn);
      }
    }

    method RemoveConn(conn: Conn, roomID: RoomId)
      requires Valid()
      modifies this
      ensures Valid() && Subs() == old(Subs()) - {(conn, roomID)}
      ensures forall c :: c in userIDs ==> c in old(userIDs) && userIDs[c] == old(userIDs)[c]
    {
      if conn !in userIDs || userIDs[conn] == NO_USER {
        assert Subs() - {(conn, roomID)} == Subs();
        return;
      }
      Detach(conn, userIDs[conn], roomID, Subs());
      SubsOfRemove(connRooms, conn, roomID);
      connRooms := connRooms[conn := connRooms[conn] - {roomID}];
      if |connRooms[conn]| == 0 {
        connRooms := connRooms - {conn};
        userIDs := userIDs - {conn};
        assert connRooms == old(connRooms) - {conn};
        ForgetUser(rooms, old(userIDs), Subs(), conn);
      }
    }

    method DisconnectAll(conn: Conn)
      requires Valid()
      modifies this
      ensures Valid() && Subs() == Meaning(old(Subs()), Disconnect(conn))
      ensures forall c :: c in userIDs ==> c in old(userIDs) && userIDs[c] == old(userIDs)[c]
    {
      if conn !in userIDs || userIDs[conn] == NO_USER {
        assert Subs() == Meaning(Subs(), Disconnect(conn));
        return;
      }
      ghost var subs := Subs();
      ghost var left := subs;
      var todo := connRooms[conn];
      while todo != {}
        invariant todo <= old(connRooms)[conn]
        invariant left == set s | s in subs && (s.0 != conn || s.1 in todo)
        invariant Indexes(rooms, userIDs, left)
        decreases todo
        modifies this`rooms
      {
        var roomID := Pick(todo);
        Detach(conn, userIDs[conn], roomID, left);
        todo := todo - {roomID};
        left := left - {(conn, roomID)};
      }
      connRooms := connRooms - {conn};
      userIDs := userIDs - {conn};
      assert left == Meaning(subs, Disconnect(conn)) == Subs();
      ForgetUser(rooms, old(userIDs), Subs(), conn);
    }

    /**
     Calls Send once on every connection of the room, in whatever order the maps iterate; a
     connection that does not accept is closed. The hub itself does not change.
     */
    method SendToRoom(roomID: RoomId, accepting: set<Conn>) returns (sent: seq<Conn>, closed: seq<Conn>)
      requires Valid()
      ensures Delivered(sent, closed, Subscribers(Subs(), roomID), accepting)
    {
      sent, closed := [], [];
      if roomID !in rooms || |rooms[roomID]| == 0 {
        assert Subscribers(Subs(), roomID) == {} by {
          forall c ensures (c, roomID) !in Subs() {
            assert !Listed(rooms, roomID, if c in userIDs then userIDs[c] else NO_USER, c);
          }
        }
        return;
      }
      var room := rooms[roomID];
      var users := room.Keys;
      while users != {}
        invariant users <= room.Keys
        invariant Delivered(sent, closed, OfUsers(roomID, room.Keys - users), accepting)
        decreases users
      {
        var user := Pick(users);
        ghost var before := users;
        ghost var done := OfUsers(roomID, room.Keys - users);
        assert room[user] == Conns(rooms, roomID, user);
        var sent', closed' := SendToConns(room[user], accepting);
        forall c | c in done ensures c !in room[user] {
          var u :| u in room.Keys - users && c in Conns(rooms, roomID, u);
          assert Listed(rooms, roomID, u, c);
          assert Listed(rooms, roomID, user, c) <==> c in room[user];
        }
        DeliveredJoin(sent, closed, done, sent', closed', Elements(room[user]), accepting);
        sent, closed := sent + sent', closed + closed';
        users := users - {user};
        assert room.Keys - users == (room.Keys - before) + {user};
        OfUsersAdd(roomID, room.Keys - before, user);
      }
      RoomListsSubscribers(roomID);
    }

    lemma OfUsersAdd(roomID: RoomId, users: set<UserId>, user: UserId)
      ensures OfUsers(roomID, users + {user}) == OfUsers(roomID, users) + Elements(Conns(rooms, roomID, user))
    {
      forall c
        ensures c in OfUsers(roomID, users + {user}) <==> c in OfUsers(roomID, users) || c in Conns(rooms, roomID, user)
      {
        if c in OfUsers(roomID, users) {
          var u :| u in users && c in Conns(rooms, roomID, u);
          assert u in users + {user};
        }
        if c in Conns(rooms, roomID, user) {
          assert user in users + {user};
        }
      }
    }

    lemma RoomListsSubscribers(roomID: RoomId)
      requires Valid() && roomID in rooms
      ensures OfUsers(roomID, rooms[roomID].Keys) == Subscribers(Subs(), roomID)
    {
      var users := rooms[roomID].Keys;
      forall c ensures c in OfUsers(roomID, users) <==> (c, roomID) in Subs() {
        if (c, roomID) in Subs() {
          assert Listed(rooms, roomID, userIDs[c], c);
        }
        if c in OfUsers(roomID, users) {
          var u :| u in users && c in Conns(rooms, roomID, u);
          assert Listed(rooms, roomID, u, c);
        }
      }
    }

    ghost function OfUsers(roomID: RoomId, users: set<UserId>): set<Conn>
      reads this
    {
      set u, c | u in users && c in Conns(rooms, roomID, u) :: c
    }

    /** The number of distinct users with at least one connection in the room. */
    method GetRoomUserCount(roomID: RoomId) returns (n: nat)
      requires Valid()
      ensures n == |UsersIn(roomID)|
    {
      if roomID in rooms {
        n := |rooms[roomID]|;
        forall u ensures u in rooms[roomID] <==> u in UsersIn(roomID) {
          if u in rooms[roomID] {
            var c := rooms[roomID][u][0];
            assert Listed(rooms, roomID, u, c);
          }
          if u in UsersIn(roomID) {
            var c :| (c, roomID) in Subs() && userIDs[c] == u;
            assert Listed(rooms, roomID, u, c);
          }
        }
        assert rooms[roomID].Keys == UsersIn(roomID);
      } else {
        n := 0;
        forall c ensures (c, roomID) !in Subs() {
          assert !Listed(rooms, roomID, if c in userIDs then userIDs[c] else NO_USER, c);
        }
        assert UsersIn(roomID) == {};
      }
    }

    ghost function UsersIn(roomID: RoomId): set<UserId>
      requires Valid()
      reads this
    {
      set s | s in Subs() && s.1 == roomID :: userIDs[s.0]
    }

    /** `userOf` is the user each connection belongs to. */
    ghost predicate KnowsUsers(userOf: Conn -> UserId)
      reads this
    {
      forall c :: c in userIDs ==> userIDs[c] == userOf(c)
    }

    /** One case of the select statement. */
    method Serve(r: Request, ghost userOf: Conn -> UserId) returns (answer: Answer)
      requires Valid() && KnowsUsers(userOf)
      requires r.Register? ==> r.user == userOf(r.conn) && r.user != NO_USER
      modifies this
      ensures Valid() && KnowsUsers(userOf)
      ensures Subs() == Meaning(old(Subs()), r)
      ensures RightAnswer(r, answer, old(Subs()), userOf)
    {
      answer := Nothing;
      match r {
        case Register(conn, user, room) => AddConn(conn, user, room);
        case Unregister(conn, room) => RemoveConn(conn, room);
        case Disconnect(conn) => DisconnectAll(conn);
        case Broadcast(room, accepting) =>
          var sent, closed := SendToRoom(room, accepting);
          answer := Deliveries(sent, closed);
        case RoomCount(room) =>
          var n := GetRoomUserCount(room);
          UsersInRoom(room, userOf);
          answer := Count(n);
      }
    }

    /** The event loop, for any sequence of requests it may pick, with what each of them gets back. */
    method Run(picks: seq<Request>, ghost userOf: Conn -> UserId) returns (answers: seq<Answer>)
      requires Valid() && KnowsUsers(userOf)
      requires forall i :: 0 <= i < |picks| && picks[i].Register? ==>
        picks[i].user == userOf(picks[i].conn) && picks[i].user != NO_USER
      modifies this
      ensures Valid() && KnowsUsers(userOf)
      ensures Subs() == Fold(old(Subs()), picks)
      ensures |answers| == |picks| && AllRight(picks, answers, old(Subs()), userOf)
    {
      answers := [];
      for i := 0 to |picks|
        invariant Valid() && KnowsUsers(userOf)
        invariant Subs() == Fold(old(Subs()), picks[..i])
        invariant |answers| == i && AllRight(picks, answers, old(Subs()), userOf)
      {
        var answer := Serve(picks[i], userOf);
        OneMoreAnswer(picks, answers, old(Subs()), userOf, answer);
        answers := answers + [answer];
      }
      assert picks[..|picks|] == picks;
    }

    lemma UsersInRoom(roomID: RoomId, userOf: Conn -> UserId)
      requires Valid() && KnowsUsers(userOf)
      ensures UsersIn(roomID) == DistinctUsers(Subs(), roomID, userOf)
    {
    }
  }
}
