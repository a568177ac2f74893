/** The room repository: the two tables as fields, and every statement proved against its function. */
module RoomRepository {
  import opened Wrappers
  import opened RoomTables

  datatype RoomMember = RoomMember(room: RoomId, user: UserId, role: MemberRole)

  function UserIdsOf(rows: seq<RoomMember>): set<UserId> {
    set i | 0 <= i < |rows| :: rows[i].user
  }

  /** The rows of one room, each once, in whatever order the database returns them. */
  ghost predicate AreMembersOf(rows: seq<RoomMember>, t: Tables, room: RoomId) {
    && (forall i, j :: 0 <= i < j < |rows| ==> rows[i].user != rows[j].user)
    && (forall i :: 0 <= i < |rows| ==>
          rows[i].room == room && (room, rows[i].user) in t.members && t.members[(room, rows[i].user)] == rows[i].role)
    && UserIdsOf(rows) == Users(t, room)
  }

  lemma ExtendUserIds(rows: seq<RoomMember>, row: RoomMember)
    ensures UserIdsOf(rows + [row]) == UserIdsOf(rows) + {row.user}
  {
    var longer := rows + [row];
    assert longer[|rows|] == row;
    forall u | u in UserIdsOf(rows) ensures u in UserIdsOf(longer) {
      var i :| 0 <= i < |rows| && rows[i].user == u;
      assert longer[i].user == u;
    }
  }

  class Repository {
    var rooms: map<RoomId, Room>
    var members: map<(RoomId, UserId), MemberRole>

    function Contents(): Tables
      reads this
    {
      Tables(rooms, members)
    }

    constructor ()
      ensures Contents() == Tables(map[], map[])
    {
      rooms, members := map[], map[];
    }

    /** `id` is the uuid the database generates for the row. */
    method CreateRoom(id: RoomId, name: string, kind: RoomType, createdBy: UserId, participant: UserId)
      returns (r: Result<Room, Error>)
      requires id !in rooms
      modifies this
      ensures match RoomTables.CreateRoom(old(Contents()), id, Room(name, kind, createdBy), participant)
              case Ok(t) => Contents() == t && r == Ok(Room(name, kind, createdBy))
              case Err(e) => Contents() == old(Contents()) && r == Err(e)
    {
      if kind == Direct && participant != NIL_USER {
        var existing := exists x ::
          x in rooms && rooms[x].kind == Direct && (x, createdBy) in members && (x, participant) in members;
        assert existing <==> DirectRoomBetween(Contents(), createdBy, participant);
        if existing {
          return Err(DirectRoomExists);
        }
      }
      var room := Room(name, kind, createdBy);
      rooms := rooms[id := room];
      if (id, createdBy) !in members {
        members := members[(id, createdBy) := Owner];
      }
      if kind == Direct && participant != NIL_USER {
        if (id, participant) !in members {
          members := members[(id, participant) := Member];
        }
      }
      return Ok(room);
    }

    method UpdateRoom(id: RoomId, name: string) returns (r: Result<Room, Error>)
      modifies this
      ensures match RoomTables.UpdateRoom(old(Contents()), id, name)
              case Ok(t) => Contents() == t && r == Ok(t.rooms[id])
              case Err(e) => Contents() == old(Contents()) && r == Err(e)
    {
      if id !in rooms {
        return Err(RoomNotFound);
      }
      rooms := rooms[id := rooms[id].(name := name)];
      return Ok(rooms[id]);
    }

    method DeleteRoom(id: RoomId) returns (r: Result<(), Error>)
      modifies this
      ensures match RoomTables.DeleteRoom(old(Contents()), id)
              case Ok(t) => Contents() == t && r == Ok(())
              case Err(e) => Contents() == old(Contents()) && r == Err(e)
    {
      if id !in rooms {
        return Err(RoomNotFound);
      }
      rooms := rooms - {id};
      members := map m | m in members && m.0 != id :: members[m];
      return Ok(());
    }

    method AddMember(room: RoomId, user: UserId, role: MemberRole) returns (r: Result<RoomMember, Error>)
      modifies this
      ensures match RoomTables.AddMember(old(Contents()), room, user, role)
              case Ok(t) => Contents() == t && r == Ok(RoomMember(room, user, role))
              case Err(e) => Contents() == old(Contents()) && r == Err(e)
    {
      if (room, user) in members {
        return Err(MemberAlreadyExists);
      }
      if room !in rooms {
        return Err(ForeignKeyViolation);
      }
      members := members[(room, user) := role];
      return Ok(RoomMember(room, user, role));
    }

    method RemoveMember(room: RoomId, user: UserId) returns (r: Result<(), Error>)
      modifies this
      ensures match RoomTables.RemoveMember(old(Contents()), room, user)
              case Ok(t) => Contents() == t && r == Ok(())
              case Err(e) => Contents() == old(Contents()) && r == Err(e)
    {
      if (room, user) !in members {
        return Err(MemberNotFound);
      }
      members := members - {(room, user)};
      return Ok(());
    }

    method GetRoomMembers(room: RoomId) returns (rows: seq<RoomMember>)
      ensures AreMembersOf(rows, Contents(), room)
    {
      rows := [];
      var users := Users(Contents(), room);
      var rest := users;
      while rest != {}
        invariant rest <= users
        invariant UserIdsOf(rows) == users - rest
        invariant forall i :: 0 <= i < |rows| ==>
          rows[i].room == room && (room, rows[i].user) in members && members[(room, rows[i].user)] == rows[i].role
        invariant forall i, j :: 0 <= i < j < |rows| ==> rows[i].user != rows[j].user
        decreases rest
      {
        var u :| u in rest;
        ghost var seen := rows;
        rows := rows + [RoomMember(room, u, members[(room, u)])];
        ExtendUserIds(seen, rows[|seen|]);
        rest := rest - {u};
      }
    }
  }
}
