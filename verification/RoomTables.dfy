/**
 The rooms and room_members tables and the statements the room repository runs on them.

 One SQL statement, and the serializable transaction of CreateRoom, is one atomic change of the
 tables, given here as a function on table values.
 */
module RoomTables {
  import opened Wrappers

  type UserId = nat
  type RoomId = nat

  /** The all-zero uuid, which stands for "no participant". */
  const NIL_USER: UserId := 0

  datatype RoomType = Direct | Group

  datatype MemberRole = Owner | Member

  datatype Room = Room(name: string, kind: RoomType, createdBy: UserId)

  /** members has the primary key (room_id, user_id). */
  datatype Tables = Tables(rooms: map<RoomId, Room>, members: map<(RoomId, UserId), MemberRole>)

  datatype Error = RoomNotFound | MemberNotFound | MemberAlreadyExists | DirectRoomExists | ForeignKeyViolation

  function Users(t: Tables, room: RoomId): set<UserId> {
    set m | m in t.members && m.0 == room :: m.1
  }

  function Owners(t: Tables, room: RoomId): set<UserId> {
    set m | m in t.members && m.0 == room && t.members[m] == Owner :: m.1
  }

  predicate IsMember(t: Tables, room: RoomId, user: UserId) {
    (room, user) in t.members
  }

  /** What the two joins of getDirectRoomByUsersTx look for. */
  ghost predicate DirectRoomBetween(t: Tables, user1: UserId, user2: UserId) {
    exists r :: r in t.rooms && t.rooms[r].kind == Direct && IsMember(t, r, user1) && IsMember(t, r, user2)
  }

  // ---------- statements ----------

  /** INSERT INTO room_members ... ON CONFLICT DO NOTHING, when the room exists. */
  function InsertMember(t: Tables, room: RoomId, user: UserId, role: MemberRole): Tables {
    if (room, user) in t.members then t else t.(members := t.members[(room, user) := role])
  }

  function InsertRoom(t: Tables, id: RoomId, room: Room): Tables {
    t.(rooms := t.rooms[id := room])
  }

  /** The rows the CreateRoom transaction writes once the duplicate check has passed. */
  function WithNewRoom(t: Tables, id: RoomId, room: Room, participant: UserId): Tables {
    var t1 := InsertMember(InsertRoom(t, id, room), id, room.createdBy, Owner);
    if room.kind == Direct && participant != NIL_USER then InsertMember(t1, id, participant, Member) else t1
  }

  ghost function CreateRoom(t: Tables, id: RoomId, room: Room, participant: UserId): Result<Tables, Error> {
    if room.kind == Direct && participant != NIL_USER && DirectRoomBetween(t, room.createdBy, participant) then
      Err(DirectRoomExists)
    else
      Ok(WithNewRoom(t, id, room, participant))
  }

  function GetRoomById(t: Tables, id: RoomId): Result<Room, Error> {
    if id in t.rooms then Ok(t.rooms[id]) else Err(RoomNotFound)
  }

  function UpdateRoom(t: Tables, id: RoomId, name: string): Result<Tables, Error> {
    if id in t.rooms then Ok(t.(rooms := t.rooms[id := t.rooms[id].(name := name)])) else Err(RoomNotFound)
  }

  /** DELETE FROM rooms; ON DELETE CASCADE takes the member rows with it. */
  function DeleteRoom(t: Tables, id: RoomId): Result<Tables, Error> {
    if id in t.rooms then
      Ok(Tables(t.rooms - {id}, map m | m in t.members && m.0 != id :: t.members[m]))
    else
      Err(RoomNotFound)
  }

  function AddMember(t: Tables, room: RoomId, user: UserId, role: MemberRole): Result<Tables, Error> {
    if (room, user) in t.members then Err(MemberAlreadyExists)
    else if room !in t.rooms then Err(ForeignKeyViolation)
    else Ok(InsertMember(t, room, user, role))
  }

  function RemoveMember(t: Tables, room: RoomId, user: UserId): Result<Tables, Error> {
    if (room, user) in t.members then Ok(t.(members := t.members - {(room, user)})) else Err(MemberNotFound)
  }

  function GetMemberRole(t: Tables, room: RoomId, user: UserId): Result<MemberRole, Error> {
    if (room, user) in t.members then Ok(t.members[(room, user)]) else Err(MemberNotFound)
  }

  // ---------- what the tables are meant to say ----------

  /** A direct room holds its creator and exactly one other user. */
  ghost predicate HoldsTwo(t: Tables, room: RoomId)
    requires room in t.rooms
  {
    exists p :: p != t.rooms[room].createdBy && Users(t, room) == {t.rooms[room].createdBy, p}
  }

  ghost predicate MembersHaveRooms(t: Tables) {
    forall m :: m in t.members ==> m.0 in t.rooms
  }

  ghost predicate OneOwner(t: Tables) {
    forall r :: r in t.rooms ==> Owners(t, r) == {t.rooms[r].createdBy}
  }

  ghost predicate DirectRoomsHoldTwo(t: Tables) {
    forall r :: r in t.rooms && t.rooms[r].kind == Direct ==> HoldsTwo(t, r)
  }

  ghost predicate OneDirectRoomPerPair(t: Tables) {
    forall r1, r2 ::
      r1 in t.rooms && r2 in t.rooms && t.rooms[r1].kind == t.rooms[r2].kind == Direct && Users(t, r1) == Users(t, r2)
      ==> r1 == r2
  }

  ghost predicate TablesOk(t: Tables) {
    MembersHaveRooms(t) && OneOwner(t) && DirectRoomsHoldTwo(t) && OneDirectRoomPerPair(t)
  }

  /** Rooms other than `room` keep their row and their members. */
  ghost predicate OnlyTouches(t: Tables, t': Tables, room: RoomId) {
    && (forall r :: r != room ==> (r in t.rooms <==> r in t'.rooms))
    && (forall r :: r != room && r in t.rooms ==> t'.rooms[r] == t.rooms[r])
    && (forall m :: m in t.members && m.0 != room ==> m in t'.members && t'.members[m] == t.members[m])
    && (forall m :: m in t'.members && m.0 != room ==> m in t.members)
  }

  lemma UntouchedRoom(t: Tables, t': Tables, room: RoomId, r: RoomId)
    requires OnlyTouches(t, t', room) && r != room
    ensures Users(t', r) == Users(t, r) && Owners(t', r) == Owners(t, r)
  {
    forall u ensures u in Users(t', r) <==> u in Users(t, r) {
      assert u in Users(t', r) <==> (r, u) in t'.members;
      assert u in Users(t, r) <==> (r, u) in t.members;
    }
    forall u ensures u in Owners(t', r) <==> u in Owners(t, r) {
      assert u in Owners(t', r) <==> (r, u) in t'.members && t'.members[(r, u)] == Owner;
      assert u in Owners(t, r) <==> (r, u) in t.members && t.members[(r, u)] == Owner;
    }
  }

  /** The changed room is well formed, and no other direct room holds the same two. */
  ghost predicate EndsWell(t: Tables, t': Tables, room: RoomId) {
    && (forall m :: m in t'.members && m.0 == room ==> room in t'.rooms)
    && (room in t'.rooms ==> Owners(t', room) == {t'.rooms[room].createdBy})
    && (room in t'.rooms && t'.rooms[room].kind == Direct ==>
          && HoldsTwo(t', room)
          && forall r :: r != room && r in t.rooms && t.rooms[r].kind == Direct ==> Users(t, r) != Users(t', room))
  }

  lemma OtherRoomStaysOk(t: Tables, t': Tables, room: RoomId, r: RoomId)
    requires TablesOk(t) && OnlyTouches(t, t', room) && r != room && r in t'.rooms
    ensures r in t.rooms && t'.rooms[r] == t.rooms[r] && Users(t', r) == Users(t, r)
    ensures Owners(t', r) == {t'.rooms[r].createdBy} && (t'.rooms[r].kind == Direct ==> HoldsTwo(t', r))
  {
    UntouchedRoom(t, t', room, r);
    assert Owners(t, r) == {t.rooms[r].createdBy};
    assert t.rooms[r].kind == Direct ==> HoldsTwo(t, r);
  }

  lemma DirectRoomsStayApart(t: Tables, t': Tables, room: RoomId, r1: RoomId, r2: RoomId)
    requires TablesOk(t) && OnlyTouches(t, t', room) && EndsWell(t, t', room)
    requires r1 in t'.rooms && r2 in t'.rooms && t'.rooms[r1].kind == t'.rooms[r2].kind == Direct
    requires Users(t', r1) == Users(t', r2)
    ensures r1 == r2
  {
    if r1 != room { OtherRoomStaysOk(t, t', room, r1); }
    if r2 != room { OtherRoomStaysOk(t, t', room, r2); }
  }

  /** A change of one room keeps the tables well formed when that room ends up well formed. */
  lemma OneRoomChangeKeeps(t: Tables, t': Tables, room: RoomId)
    requires TablesOk(t) && OnlyTouches(t, t', room) && EndsWell(t, t', room)
    ensures TablesOk(t')
  {
    forall r | r in t'.rooms
      ensures Owners(t', r) == {t'.rooms[r].createdBy} && (t'.rooms[r].kind == Direct ==> HoldsTwo(t', r))
    {
      if r != room { OtherRoomStaysOk(t, t', room, r); }
    }
    forall r1, r2 | r1 in t'.rooms && r2 in t'.rooms && t'.rooms[r1].kind == t'.rooms[r2].kind == Direct
                    && Users(t', r1) == Users(t', r2)
      ensures r1 == r2
    {
      DirectRoomsStayApart(t, t', room, r1, r2);
    }
  }

  /** A direct room is to be created with a participant who is not the creator. */
  predicate NamesOther(room: Room, participant: UserId) {
    room.kind == Direct ==> participant != NIL_USER && participant != room.createdBy
  }

  lemma CreateProperRoomKeeps(t: Tables, id: RoomId, room: Room, participant: UserId)
    requires TablesOk(t) && id !in t.rooms
    requires NamesOther(room, participant)
    ensures CreateRoom(t, id, room, participant).Ok? ==> TablesOk(CreateRoom(t, id, room, participant).value)
  {
    if CreateRoom(t, id, room, participant).Ok? {
      var t' := WithNewRoom(t, id, room, participant);
      assert (id, room.createdBy) !in t.members && (id, participant) !in t.members;
      assert t'.members == if room.kind == Direct
                           then t.members[(id, room.createdBy) := Owner][(id, participant) := Member]
                           else t.members[(id, room.createdBy) := Owner];
      forall u ensures u in Owners(t', id) <==> u == room.createdBy {
        assert u in Owners(t', id) <==> (id, u) in t'.members && t'.members[(id, u)] == Owner;
      }
      if room.kind == Direct {
        forall u ensures u in Users(t', id) <==> u in {room.createdBy, participant} {
          assert u in Users(t', id) <==> (id, u) in t'.members;
        }
        assert Users(t', id) == {room.createdBy, participant};
        forall r | r in t.rooms && r != id && t.rooms[r].kind == Direct
          ensures Users(t, r) != Users(t', id)
        {
          assert !(IsMember(t, r, room.createdBy) && IsMember(t, r, participant));
          assert room.createdBy in Users(t, r) <==> IsMember(t, r, room.createdBy);
          assert participant in Users(t, r) <==> IsMember(t, r, participant);
        }
      }
      OneRoomChangeKeeps(t, t', id);
    }
  }

  /**
   The transaction keeps the tables well formed exactly if a direct room comes with another participant. It
   does not check that itself; the service does.
   */
  lemma CreateRoomKeeps(t: Tables, id: RoomId, room: Room, participant: UserId)
    requires TablesOk(t) && id !in t.rooms
    ensures CreateRoom(t, id, room, participant).Ok? ==>
      (TablesOk(CreateRoom(t, id, room, participant).value) <==> NamesOther(room, participant))
  {
    if CreateRoom(t, id, room, participant).Ok? {
      if NamesOther(room, participant) {
        CreateProperRoomKeeps(t, id, room, participant);
      } else {
        var t' := WithNewRoom(t, id, room, participant);
        assert Users(t', id) == {room.createdBy} by {
          forall u ensures u in Users(t', id) <==> u == room.createdBy {
            assert u in Users(t', id) <==> (id, u) in t'.members;
          }
        }
        assert forall p :: p != room.createdBy ==> p !in Users(t', id);
        assert !HoldsTwo(t', id);
      }
    }
  }

  lemma UpdateRoomKeeps(t: Tables, id: RoomId, name: string)
    requires TablesOk(t)
    ensures UpdateRoom(t, id, name).Ok? ==> TablesOk(UpdateRoom(t, id, name).value)
  {
    if id in t.rooms {
      var t' := UpdateRoom(t, id, name).value;
      assert forall r :: Users(t', r) == Users(t, r) && Owners(t', r) == Owners(t, r);
      assert t.rooms[id].kind == Direct ==> HoldsTwo(t, id);
      OneRoomChangeKeeps(t, t', id);
    }
  }

  lemma DeleteRoomKeeps(t: Tables, id: RoomId)
    requires TablesOk(t)
    ensures DeleteRoom(t, id).Ok? ==> TablesOk(DeleteRoom(t, id).value)
  {
    if id in t.rooms {
      OneRoomChangeKeeps(t, DeleteRoom(t, id).value, id);
    }
  }

  lemma AddMemberKeeps(t: Tables, id: RoomId, user: UserId)
    requires TablesOk(t) && (id in t.rooms ==> t.rooms[id].kind == Group)
    ensures AddMember(t, id, user, Member).Ok? ==> TablesOk(AddMember(t, id, user, Member).value)
  {
    if AddMember(t, id, user, Member).Ok? {
      var t' := AddMember(t, id, user, Member).value;
      forall u ensures u in Owners(t', id) <==> u in Owners(t, id) {
        assert u in Owners(t', id) <==> (id, u) in t'.members && t'.members[(id, u)] == Owner;
        assert u in Owners(t, id) <==> (id, u) in t.members && t.members[(id, u)] == Owner;
      }
      OneRoomChangeKeeps(t, t', id);
    }
  }

  lemma RemoveMemberKeeps(t: Tables, id: RoomId, user: UserId)
    requires TablesOk(t) && (id in t.rooms ==> t.rooms[id].kind == Group && user != t.rooms[id].createdBy)
    ensures RemoveMember(t, id, user).Ok? ==> TablesOk(RemoveMember(t, id, user).value)
  {
    if RemoveMember(t, id, user).Ok? {
      var t' := RemoveMember(t, id, user).value;
      assert id in t.rooms;
      forall u ensures u in Owners(t', id) <==> u in Owners(t, id) {
        assert u in Owners(t', id) <==> (id, u) in t'.members && t'.members[(id, u)] == Owner;
        assert u in Owners(t, id) <==> (id, u) in t.members && t.members[(id, u)] == Owner;
      }
      OneRoomChangeKeeps(t, t', id);
    }
  }

  /** The role stored for a user tells whether that user created the room. */
  lemma RoleTellsCreator(t: Tables, id: RoomId, user: UserId)
    requires TablesOk(t) && (id, user) in t.members
    ensures id in t.rooms && (t.members[(id, user)] == Owner <==> user == t.rooms[id].createdBy)
  {
    assert user in Owners(t, id) <==> t.members[(id, user)] == Owner;
  }
}
