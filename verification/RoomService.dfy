/**
 The room service run one call at a time with no failing repository or publisher call, and the
 event log it publishes.
 */
module RoomService {
  import opened Wrappers
  import opened RoomRepository
  import opened RoomTables
  import opened RoomProtocol

  // ---------- what a call does when it runs alone ----------

  function Finish(t: Tables, published: seq<Event>): Effect {
    Effect(t, Finished(Ok(())), published)
  }

  /** What a request means, without program counters. */
  ghost function Outcome(t: Tables, r: Request, newId: RoomId): Effect {
    match r
    case Create(name, kind, createdBy, participant) =>
      if kind == Direct && participant in {NIL_USER, createdBy} then Refuse(t, InvalidDirectRoom)
      else if kind == Direct && DirectRoomBetween(t, createdBy, participant) then Refuse(t, DuplicateDirectRoom)
      else
        var t' := WithNewRoom(t, newId, Room(name, kind, createdBy), participant);
        Finish(t', [RoomCreated(newId, Users(t', newId))])
    case Update(room, requester, name) =>
      if Denied(t, r).Some? then Refuse(t, Denied(t, r).value)
      else
        var t' := t.(rooms := t.rooms[room := t.rooms[room].(name := name)]);
        Finish(t', [RoomUpdated(room, name, Users(t', room))])
    case Delete(room, _) =>
      if Denied(t, r).Some? then Refuse(t, Denied(t, r).value)
      else Finish(DeleteRoom(t, room).value, [RoomDeleted(room, Users(t, room))])
    case Add(room, user, _) =>
      if Denied(t, r).Some? then Refuse(t, Denied(t, r).value)
      else if IsMember(t, room, user) then Finish(t, [])
      else
        var t' := t.(members := t.members[(room, user) := Member]);
        Finish(t', [MembershipChanged(room, user, true, Users(t, room) + {user})])
    case Remove(room, user, _) =>
      if Denied(t, r).Some? then Refuse(t, Denied(t, r).value)
      else
        var t' := t.(members := t.members - {(room, user)});
        Finish(t', [MembershipChanged(room, user, false, Users(t, room) - {user})])
  }

  predicate IsOwner(t: Tables, room: RoomId, user: UserId) {
    (room, user) in t.members && t.members[(room, user)] == Owner
  }

  /** Why a request on an existing room is turned away, if it is. */
  function Denied(t: Tables, r: Request): (reason: Option<Refusal>)
    requires !r.Create?
    ensures reason.None? ==> r.room in t.rooms
    ensures reason.None? && r.Remove? ==> IsMember(t, r.room, r.user) && !IsOwner(t, r.room, r.user)
  {
    if r.room !in t.rooms then Some(RoomMissing)
    else if (r.Add? || r.Remove?) && t.rooms[r.room].kind == Direct then Some(DirectRoomImmutable)
    else if !IsMember(t, r.room, r.requester) then Some(NotMember)
    else if r.Add? then None
    else if r.Remove? && r.user == r.requester then
      if IsOwner(t, r.room, r.user) then Some(CannotRemoveOwner) else None
    else if !IsOwner(t, r.room, r.requester) then Some(NotOwner)
    else if r.Remove? && !IsMember(t, r.room, r.user) then Some(MemberMissing)
    else if r.Remove? && IsOwner(t, r.room, r.user) then Some(CannotRemoveOwner)
    else None
  }

  function Rank(stage: Stage): nat {
    match stage
    case Begin => 6
    case RoomChecked => 5
    case RequesterChecked => 4
    case TargetChecked => 3
    case Changed(_) => 2
    case Announcing(_) => 2
    case Deleting => 1
    case Finished(_) => 0
  }

  /** The steps of one call, run to the end without interference or failure. */
  ghost function RunAlone(t: Tables, call: Call, newId: RoomId): Effect
    requires Fits(call.request, call.stage)
    decreases Rank(call.stage), if call.stage.Changed? then 1 else 0
  {
    if call.stage.Finished? then Effect(t, call.stage, [])
    else
      var e := Step(t, call, newId, Works);
      var rest := RunAlone(e.tables, call.(stage := e.stage), newId);
      Effect(rest.tables, rest.stage, e.published + rest.published)
  }

  /** From the member read on, a call only publishes its event. */
  lemma RunFromChanged(t: Tables, r: Request, room: RoomId, newId: RoomId)
    requires !r.Delete?
    ensures RunAlone(t, Call(r, Changed(room)), newId)
         == Finish(t, [StepChanged(t, r, room, Works).stage.event])
  {
    var event := StepChanged(t, r, room, Works).stage.event;
    assert RunAlone(t, Call(r, Finished(Ok(()))), newId) == Finish(t, []);
    assert RunAlone(t, Call(r, Announcing(event)), newId) == Finish(t, [event] + []);
    assert [event] + [] == [event];
    assert RunAlone(t, Call(r, Changed(room)), newId) == Finish(t, [] + [event]);
    assert [] + [event] == [event];
  }

  lemma RunFromTargetChecked(t: Tables, r: Request, newId: RoomId)
    requires r.Remove? && IsMember(t, r.room, r.user)
    ensures var t' := t.(members := t.members - {(r.room, r.user)});
            RunAlone(t, Call(r, TargetChecked), newId)
            == Finish(t', [MembershipChanged(r.room, r.user, false, Users(t, r.room) - {r.user})])
  {
    var t' := RemoveMember(t, r.room, r.user).value;
    assert Users(t', r.room) == Users(t, r.room) - {r.user};
    RunFromChanged(t', r, r.room, newId);
  }

  lemma RunFromRequesterChecked(t: Tables, r: Request, newId: RoomId)
    requires !r.Create? && r.room in t.rooms
    requires StepRoomChecked(t, r, Works).stage == RequesterChecked
    requires (r.Add? || r.Remove?) ==> t.rooms[r.room].kind == Group
    ensures RunAlone(t, Call(r, RequesterChecked), newId) == Outcome(t, r, newId)
  {
    var e := Step(t, Call(r, RequesterChecked), newId, Works);
    match r
    case Update(room, _, name) => RunFromChanged(e.tables, r, room, newId);
    case Delete(room, _) =>
      var event := RoomDeleted(room, Users(t, room));
      assert RunAlone(t, Call(r, Deleting), newId) == Finish(DeleteRoom(t, room).value, []);
      assert RunAlone(t, Call(r, Announcing(event)), newId).published == [event] + [];
    case Add(room, user, _) =>
      if e.stage.Changed? {
        assert Users(e.tables, room) == Users(t, room) + {user};
        RunFromChanged(e.tables, r, room, newId);
      }
    case Remove(_, _, _) =>
      if e.stage == TargetChecked { RunFromTargetChecked(t, r, newId); }
  }

  lemma CreateAloneIsOutcome(t: Tables, r: Request, newId: RoomId)
    requires r.Create?
    ensures RunAlone(t, Call(r, Begin), newId) == Outcome(t, r, newId)
  {
    var e := Step(t, Call(r, Begin), newId, Works);
    if e.stage.Changed? { RunFromChanged(e.tables, r, newId, newId); }
    assert RunAlone(t, Call(r, Begin), newId).published == [] + RunAlone(e.tables, Call(r, e.stage), newId).published;
  }

  /** With the room found and open to the request, the call goes on to the requester's role. */
  lemma RunFromRoomChecked(t: Tables, r: Request, newId: RoomId)
    requires !r.Create? && r.room in t.rooms
    requires (r.Add? || r.Remove?) ==> t.rooms[r.room].kind == Group
    ensures RunAlone(t, Call(r, RoomChecked), newId) == Outcome(t, r, newId)
  {
    var e := Step(t, Call(r, RoomChecked), newId, Works);
    if e.stage == RequesterChecked {
      RunFromRequesterChecked(t, r, newId);
    } else if e.stage == TargetChecked {
      RunFromTargetChecked(t, r, newId);
    }
    assert RunAlone(t, Call(r, RoomChecked), newId).published == [] + RunAlone(t, Call(r, e.stage), newId).published;
  }

  /** The interleaved machine's steps, taken by one call alone, add up to the meaning of the request. */
  lemma RunAloneIsOutcome(t: Tables, r: Request, newId: RoomId)
    requires TablesOk(t) && newId !in t.rooms
    ensures RunAlone(t, Call(r, Begin), newId) == Outcome(t, r, newId)
  {
    if r.Create? {
      CreateAloneIsOutcome(t, r, newId);
    } else {
      var e := Step(t, Call(r, Begin), newId, Works);
      if e.stage == RoomChecked { RunFromRoomChecked(t, r, newId); }
      assert RunAlone(t, Call(r, Begin), newId).published == [] + RunAlone(t, Call(r, e.stage), newId).published;
    }
  }

  // ---------- the event log ----------

  /** What a consumer of the events knows: the members of every room. */
  type Membership = map<RoomId, set<UserId>>

  function MembershipOf(t: Tables): Membership {
    map r | r in t.rooms :: Users(t, r)
  }

  function Learn(m: Membership, e: Event): Membership {
    match e
    case RoomCreated(room, recipients) => m[room := recipients]
    case MembershipChanged(room, user, added, _) =>
      if room in m then m[room := if added then m[room] + {user} else m[room] - {user}] else m
    case RoomUpdated(_, _, _) => m
    case RoomDeleted(room, _) => m - {room}
  }

  function Fold(m: Membership, events: seq<Event>): Membership {
    if events == [] then m else Learn(Fold(m, events[..|events| - 1]), events[|events| - 1])
  }

  lemma {:induction false} FoldAppend(m: Membership, a: seq<Event>, b: seq<Event>)
    ensures Fold(m, a + b) == Fold(Fold(m, a), b)
  {
    if b == [] {
      assert a + b == a;
    } else {
      assert (a + b)[..|a + b| - 1] == a + b[..|b| - 1];
      FoldAppend(m, a, b[..|b| - 1]);
    }
  }

  /** The recipients are the members right after the change, or right before a deletion. */
  ghost predicate AddressesMembers(e: Event, before: Tables, after: Tables) {
    e.recipients == Users(if e.RoomDeleted? then before else after, e.room)
  }

  /** The event says what happened to its room, and nothing happened to the other rooms. */
  ghost predicate Explains(e: Event, t: Tables, t': Tables) {
    && OnlyTouches(t, t', e.room)
    && AddressesMembers(e, t, t')
    && (e.RoomDeleted? <==> e.room !in t'.rooms)
    && (!e.RoomCreated? ==> e.room in t.rooms)
    && (e.MembershipChanged? ==>
          Users(t', e.room) == if e.added then Users(t, e.room) + {e.user} else Users(t, e.room) - {e.user})
    && (e.RoomUpdated? ==> Users(t', e.room) == Users(t, e.room))
  }

  /** An event that explains a change keeps a consumer up to date. */
  lemma EventAnnounces(t: Tables, t': Tables, e: Event)
    requires Explains(e, t, t')
    ensures Fold(MembershipOf(t), [e]) == MembershipOf(t')
  {
    assert [e][..0] == [];
    assert Fold(MembershipOf(t), [e]) == Learn(MembershipOf(t), e);
    forall r | r in t.rooms && r != e.room ensures Users(t', r) == Users(t, r) {
      UntouchedRoom(t, t', e.room, r);
    }
  }

  /** One call's events turn the old membership into the new one. */
  lemma OutcomeIsAnnounced(t: Tables, r: Request, newId: RoomId)
    requires TablesOk(t) && newId !in t.rooms
    ensures var o := Outcome(t, r, newId);
            && Fold(MembershipOf(t), o.published) == MembershipOf(o.tables)
            && |o.published| <= 1
            && (o.published != [] ==> AddressesMembers(o.published[0], t, o.tables))
  {
    var o := Outcome(t, r, newId);
    if o.published != [] {
      assert o.published == [o.published[0]];
      OutcomeIsExplained(t, r, newId);
      EventAnnounces(t, o.tables, o.published[0]);
    }
  }

  lemma OutcomeIsExplained(t: Tables, r: Request, newId: RoomId)
    requires TablesOk(t) && newId !in t.rooms && Outcome(t, r, newId).published != []
    ensures var o := Outcome(t, r, newId); Explains(o.published[0], t, o.tables)
  {
    match r
    case Create(name, kind, createdBy, participant) =>
      CreationIsExplained(t, newId, Room(name, kind, createdBy), participant);
    case Update(room, _, name) => RenamingIsExplained(t, room, name);
    case Delete(room, _) => DeletionIsExplained(t, room);
    case Add(room, user, _) => AdditionIsExplained(t, room, user);
    case Remove(room, user, _) => RemovalIsExplained(t, room, user);
  }

  lemma CreationIsExplained(t: Tables, id: RoomId, room: Room, participant: UserId)
    ensures var t' := WithNewRoom(t, id, room, participant); Explains(RoomCreated(id, Users(t', id)), t, t')
  {
    var t1 := InsertMember(InsertRoom(t, id, room), id, room.createdBy, Owner);
    assert OnlyTouches(t, t1, id);
    assert OnlyTouches(t, InsertMember(t1, id, participant, Member), id);
  }

  lemma RenamingIsExplained(t: Tables, room: RoomId, name: string)
    requires room in t.rooms
    ensures var t' := t.(rooms := t.rooms[room := t.rooms[room].(name := name)]);
            Explains(RoomUpdated(room, name, Users(t', room)), t, t')
  {
    assert Users(t.(rooms := t.rooms[room := t.rooms[room].(name := name)]), room) == Users(t, room);
  }

  lemma DeletionIsExplained(t: Tables, room: RoomId)
    requires room in t.rooms
    ensures Explains(RoomDeleted(room, Users(t, room)), t, DeleteRoom(t, room).value)
  {
  }

  lemma AdditionIsExplained(t: Tables, room: RoomId, user: UserId)
    requires room in t.rooms
    ensures Explains(MembershipChanged(room, user, true, Users(t, room) + {user}),
                     t, t.(members := t.members[(room, user) := Member]))
  {
    var t' := t.(members := t.members[(room, user) := Member]);
    assert Users(t', room) == Users(t, room) + {user};
  }

  lemma RemovalIsExplained(t: Tables, room: RoomId, user: UserId)
    requires room in t.rooms
    ensures Explains(MembershipChanged(room, user, false, Users(t, room) - {user}),
                     t, t.(members := t.members - {(room, user)}))
  {
    var t' := t.(members := t.members - {(room, user)});
    assert Users(t', room) == Users(t, room) - {user};
  }

  lemma OutcomeKeepsTables(t: Tables, r: Request, newId: RoomId)
    requires TablesOk(t) && newId !in t.rooms
    ensures TablesOk(Outcome(t, r, newId).tables)
  {
    if Outcome(t, r, newId).published != [] {
      match r
      case Create(name, kind, createdBy, participant) =>
        CreateRoomKeeps(t, newId, Room(name, kind, createdBy), participant);
      case Update(room, _, name) => UpdateRoomKeeps(t, room, name);
      case Delete(room, _) => DeleteRoomKeeps(t, room);
      case Add(room, user, _) => AddMemberKeeps(t, room, user);
      case Remove(room, user, _) =>
        RoleTellsCreator(t, room, user);
        RemoveMemberKeeps(t, room, user);
    }
  }

  datatype Deployment = Deployment(tables: Tables, log: seq<Event>)

  /** Requests served one after the other; each comes with the id a new room would get. */
  ghost function Serve(d: Deployment, requests: seq<(Request, RoomId)>): Deployment
    decreases |requests|
  {
    if requests == [] then d
    else
      var e := RunAlone(d.tables, Call(requests[0].0, Begin), requests[0].1);
      Serve(Deployment(e.tables, d.log + e.published), requests[1..])
  }

  ghost predicate NewIdsAreNew(d: Deployment, requests: seq<(Request, RoomId)>) {
    forall i :: 0 <= i < |requests| ==> requests[i].1 !in Serve(d, requests[..i]).tables.rooms
  }

  /** Folding the whole published log gives exactly the membership table. */
  lemma {:induction false} CallsInARowAreLogged(d: Deployment, requests: seq<(Request, RoomId)>)
    requires TablesOk(d.tables) && Fold(map[], d.log) == MembershipOf(d.tables)
    requires NewIdsAreNew(d, requests)
    ensures var d' := Serve(d, requests);
            TablesOk(d'.tables) && Fold(map[], d'.log) == MembershipOf(d'.tables)
    decreases |requests|
  {
    if requests != [] {
      var (r, newId) := requests[0];
      assert requests[..0] == [];
      RunAloneIsOutcome(d.tables, r, newId);
      OutcomeIsAnnounced(d.tables, r, newId);
      OutcomeKeepsTables(d.tables, r, newId);
      var e := RunAlone(d.tables, Call(r, Begin), newId);
      var d1 := Deployment(e.tables, d.log + e.published);
      FoldAppend(map[], d.log, e.published);
      forall i | 0 <= i < |requests[1..]| ensures requests[1..][i].1 !in Serve(d1, requests[1..][..i]).tables.rooms {
        assert requests[..i + 1][1..] == requests[1..][..i];
      }
      CallsInARowAreLogged(d1, requests[1..]);
    }
  }

  // ---------- the service object ----------

  class Publisher {
    var log: seq<Event>

    constructor ()
      ensures log == []
    {
      log := [];
    }

    method Publish(event: Event)
      modifies this
      ensures log == old(log) + [event]
    {
      log := log + [event];
    }
  }

  /** The recipients of an event: every member's user id, once. */
  method MemberUserIds(members: seq<RoomMember>) returns (ids: seq<UserId>)
    ensures |ids| == |members| && forall i :: 0 <= i < |members| ==> ids[i] == members[i].user
  {
    var result := new UserId[|members|];
    for i := 0 to |members|
      invariant forall k :: 0 <= k < i ==> result[k] == members[k].user
    {
      result[i] := members[i].user;
    }
    ids := result[..];
  }

  class Service {
    const repo: Repository
    const publisher: Publisher

    constructor (repo: Repository, publisher: Publisher)
      ensures this.repo == repo && this.publisher == publisher
    {
      this.repo := repo;
      this.publisher := publisher;
    }

    /** The objects hold what the call was meant to do, and the caller got its result. */
    ghost predicate Served(meant: Effect, oldLog: seq<Event>, result: Result<(), Refusal>)
      reads repo, publisher
    {
      repo.Contents() == meant.tables && publisher.log == oldLog + meant.published && meant.stage == Finished(result)
    }

    method Recipients(room: RoomId) returns (recipients: set<UserId>)
      ensures recipients == Users(repo.Contents(), room)
    {
      var members := repo.GetRoomMembers(room);
      var ids := MemberUserIds(members);
      recipients := set i | 0 <= i < |ids| :: ids[i];
      assert recipients == UserIdsOf(members);
    }

    method CreateRoom(newId: RoomId, name: string, kind: RoomType, createdBy: UserId, participant: UserId)
      returns (r: Result<(), Refusal>)
      requires newId !in repo.rooms
      modifies repo, publisher
      ensures var meant := Outcome(old(repo.Contents()), Create(name, kind, createdBy, participant), newId);
              Served(meant, old(publisher.log), r)
    {
      if kind == Direct {
        if participant == NIL_USER {
          return Err(InvalidDirectRoom);
        }
        if createdBy == participant {
          return Err(InvalidDirectRoom);
        }
      }
      var room := repo.CreateRoom(newId, name, kind, createdBy, participant);
      if room.Err? {
        return Err(DuplicateDirectRoom);
      }
      var recipients := Recipients(newId);
      publisher.Publish(RoomCreated(newId, recipients));
      return Ok(());
    }

    method UpdateRoom(roomID: RoomId, requesterID: UserId, name: string) returns (r: Result<(), Refusal>)
      modifies repo, publisher
      ensures Served(Outcome(old(repo.Contents()), Update(roomID, requesterID, name), 0), old(publisher.log), r)
    {
      if GetRoomById(repo.Contents(), roomID).Err? {
        return Err(RoomMissing);
      }
      var role := GetMemberRole(repo.Contents(), roomID, requesterID);
      if role.Err? {
        return Err(NotMember);
      }
      if role.value != Owner {
        return Err(NotOwner);
      }
      var updated := repo.UpdateRoom(roomID, name);
      var recipients := Recipients(roomID);
      publisher.Publish(RoomUpdated(roomID, updated.value.name, recipients));
      return Ok(());
    }

    method DeleteRoom(roomID: RoomId, requesterID: UserId) returns (r: Result<(), Refusal>)
      modifies repo, publisher
      ensures Served(Outcome(old(repo.Contents()), Delete(roomID, requesterID), 0), old(publisher.log), r)
    {
      if GetRoomById(repo.Contents(), roomID).Err? {
        return Err(RoomMissing);
      }
      var role := GetMemberRole(repo.Contents(), roomID, requesterID);
      if role.Err? {
        return Err(NotMember);
      }
      if role.value != Owner {
        return Err(NotOwner);
      }
      var recipients := Recipients(roomID);
      publisher.Publish(RoomDeleted(roomID, recipients));
      var deleted := repo.DeleteRoom(roomID);
      return Ok(());
    }

    method AddMember(roomID: RoomId, userID: UserId, requesterID: UserId) returns (r: Result<(), Refusal>)
      modifies repo, publisher
      ensures Served(Outcome(old(repo.Contents()), Add(roomID, userID, requesterID), 0), old(publisher.log), r)
    {
      var room := GetRoomById(repo.Contents(), roomID);
      if room.Err? {
        return Err(RoomMissing);
      }
      if room.value.kind == Direct {
        return Err(DirectRoomImmutable);
      }
      if !IsMember(repo.Contents(), roomID, requesterID) {
        return Err(NotMember);
      }
      var added := repo.AddMember(roomID, userID, Member);
      if added == Err(MemberAlreadyExists) {
        return Ok(());
      }
      var recipients := Recipients(roomID);
      assert recipients == old(Users(repo.Contents(), roomID)) + {userID};
      publisher.Publish(MembershipChanged(roomID, userID, true, recipients));
      return Ok(());
    }

    method RemoveMember(roomID: RoomId, userID: UserId, requesterID: UserId) returns (r: Result<(), Refusal>)
      modifies repo, publisher
      ensures Served(Outcome(old(repo.Contents()), Remove(roomID, userID, requesterID), 0), old(publisher.log), r)
    {
      var room := GetRoomById(repo.Contents(), roomID);
      if room.Err? {
        return Err(RoomMissing);
      }
      if room.value.kind == Direct {
        return Err(DirectRoomImmutable);
      }
      var requesterRole := GetMemberRole(repo.Contents(), roomID, requesterID);
      if requesterRole.Err? {
        return Err(NotMember);
      }
      var isSelfRemoval := userID == requesterID;
      if !isSelfRemoval && requesterRole.value != Owner {
        return Err(NotOwner);
      }
      if isSelfRemoval && requesterRole.value == Owner {
        return Err(CannotRemoveOwner);
      }
      if !isSelfRemoval {
        var targetRole := GetMemberRole(repo.Contents(), roomID, userID);
        if targetRole.Err? {
          return Err(MemberMissing);
        }
        if targetRole.value == Owner {
          return Err(CannotRemoveOwner);
        }
      }
      var removed := repo.RemoveMember(roomID, userID);
      var recipients := Recipients(roomID);
      assert recipients == old(Users(repo.Contents(), roomID)) - {userID};
      publisher.Publish(MembershipChanged(roomID, userID, false, recipients));
      return Ok(());
    }
  }
}
