/**
 The room service's calls as interleaved protocols.

 A call is a request and a program counter; every repository or publisher call it makes is one
 atomic step, and steps of different calls interleave freely. Any step may fail, and a failing
 write may or may not have taken effect. Facts a call has checked are relied on later, while other
 calls change the tables: a room's type and creator never change and room ids are never reused, so
 those facts stay true.
 */
module RoomProtocol {
  import opened Wrappers
  import opened RoomTables

  datatype Request =
    | Create(name: string, kind: RoomType, createdBy: UserId, participant: UserId)
    | Update(room: RoomId, requester: UserId, name: string)
    | Delete(room: RoomId, requester: UserId)
    | Add(room: RoomId, user: UserId, requester: UserId)
    | Remove(room: RoomId, user: UserId, requester: UserId)

  datatype Refusal =
    | RoomMissing | NotOwner | NotMember | DuplicateDirectRoom | MemberMissing | CannotRemoveOwner
    | InvalidDirectRoom | DirectRoomImmutable | Internal

  datatype Event =
    | RoomCreated(room: RoomId, recipients: set<UserId>)
    | MembershipChanged(room: RoomId, user: UserId, added: bool, recipients: set<UserId>)
    | RoomUpdated(room: RoomId, name: string, recipients: set<UserId>)
    | RoomDeleted(room: RoomId, recipients: set<UserId>)

  /** Where a call stands: the repository or publisher call it makes next. */
  datatype Stage =
    | Begin
    | RoomChecked
    | RequesterChecked
    | TargetChecked
    | Changed(room: RoomId)
    | Announcing(event: Event)
    | Deleting
    | Finished(result: Result<(), Refusal>)

  /** What happens to one repository or publisher call. */
  datatype Fate = Works | Fails | WorksButReportsFailure

  datatype Call = Call(request: Request, stage: Stage)

  datatype Effect = Effect(tables: Tables, stage: Stage, published: seq<Event>)

  function Refuse(t: Tables, reason: Refusal): Effect {
    Effect(t, Finished(Err(reason)), [])
  }

  /** A write whose outcome decides where the call goes on. */
  function Write(t: Tables, outcome: Result<Tables, Error>, next: Stage, onError: Result<(), Refusal>,
                 fate: Fate): Effect
  {
    match fate
    case Fails => Refuse(t, Internal)
    case WorksButReportsFailure => Refuse(if outcome.Ok? then outcome.value else t, Internal)
    case Works => if outcome.Ok? then Effect(outcome.value, next, []) else Effect(t, Finished(onError), [])
  }

  // ---------- the step of each stage ----------

  ghost function StepBegin(t: Tables, r: Request, newId: RoomId, fate: Fate): Effect {
    if r.Create? then
      if r.kind == Direct && (r.participant == NIL_USER || r.createdBy == r.participant) then
        Refuse(t, InvalidDirectRoom)
      else
        Write(t, CreateRoom(t, newId, Room(r.name, r.kind, r.createdBy), r.participant), Changed(newId),
              Err(DuplicateDirectRoom), fate)
    else if fate != Works then
      Refuse(t, Internal)
    else
      match GetRoomById(t, r.room)
      case Err(_) => Refuse(t, RoomMissing)
      case Ok(room) =>
        if (r.Add? || r.Remove?) && room.kind == Direct then Refuse(t, DirectRoomImmutable)
        else Effect(t, RoomChecked, [])
  }

  function StepRoomChecked(t: Tables, r: Request, fate: Fate): Effect
    requires !r.Create?
  {
    if fate != Works then
      Refuse(t, Internal)
    else
      match GetMemberRole(t, r.room, r.requester)
      case Err(_) => Refuse(t, NotMember)
      case Ok(role) =>
        match r
        case Add(_, _, _) => Effect(t, RequesterChecked, [])
        case Remove(_, user, requester) =>
          if user != requester && role != Owner then Refuse(t, NotOwner)
          else if user == requester && role == Owner then Refuse(t, CannotRemoveOwner)
          else Effect(t, if user == requester then TargetChecked else RequesterChecked, [])
        case _ => if role != Owner then Refuse(t, NotOwner) else Effect(t, RequesterChecked, [])
  }

  function StepRequesterChecked(t: Tables, r: Request, fate: Fate): Effect
    requires !r.Create?
  {
    match r
    case Update(room, _, name) => Write(t, UpdateRoom(t, room, name), Changed(room), Err(RoomMissing), fate)
    // failing to read the members or to publish does not stop the deletion
    case Delete(room, _) =>
      Effect(t, if fate == Works then Announcing(RoomDeleted(room, Users(t, room))) else Deleting, [])
    case Add(room, user, _) =>
      var outcome := AddMember(t, room, user, Member);
      var onError := if outcome == Err(MemberAlreadyExists) then Ok(()) else Err(Internal);
      Write(t, outcome, Changed(room), onError, fate)
    case Remove(room, user, _) =>
      if fate != Works then
        Refuse(t, Internal)
      else
        match GetMemberRole(t, room, user)
        case Err(_) => Refuse(t, MemberMissing)
        case Ok(role) => if role == Owner then Refuse(t, CannotRemoveOwner) else Effect(t, TargetChecked, [])
  }

  function StepTargetChecked(t: Tables, r: Request, fate: Fate): Effect
    requires r.Remove?
  {
    Write(t, RemoveMember(t, r.room, r.user), Changed(r.room), Err(Internal), fate)
  }

  /** After the change the members are read for the event; a failure only loses the event. */
  function StepChanged(t: Tables, r: Request, room: RoomId, fate: Fate): Effect {
    if fate != Works then
      Effect(t, Finished(Ok(())), [])
    else
      var recipients := Users(t, room);
      Effect(t, Announcing(match r
                           case Create(_, _, _, _) => RoomCreated(room, recipients)
                           case Update(_, _, name) => RoomUpdated(room, name, recipients)
                           case Delete(_, _) => RoomDeleted(room, recipients)
                           case Add(_, user, _) => MembershipChanged(room, user, true, recipients)
                           case Remove(_, user, _) => MembershipChanged(room, user, false, recipients)), [])
  }

  function StepAnnouncing(t: Tables, r: Request, event: Event, fate: Fate): Effect {
    Effect(t, if r.Delete? then Deleting else Finished(Ok(())), if fate == Fails then [] else [event])
  }

  function StepDeleting(t: Tables, r: Request, fate: Fate): Effect
    requires r.Delete?
  {
    Write(t, DeleteRoom(t, r.room), Finished(Ok(())), Err(Internal), fate)
  }

  /** Which stages a request can be in. */
  predicate Fits(r: Request, stage: Stage) {
    match stage
    case Begin => true
    case RoomChecked => !r.Create?
    case RequesterChecked => !r.Create?
    case TargetChecked => r.Remove?
    case Changed(_) => !r.Delete?
    case Announcing(_) => true
    case Deleting => r.Delete?
    case Finished(_) => true
  }

  ghost function Step(t: Tables, call: Call, newId: RoomId, fate: Fate): (e: Effect)
    requires Fits(call.request, call.stage) && !call.stage.Finished?
    ensures Fits(call.request, e.stage)
  {
    var r := call.request;
    match call.stage
    case Begin => StepBegin(t, r, newId, fate)
    case RoomChecked => StepRoomChecked(t, r, fate)
    case RequesterChecked => StepRequesterChecked(t, r, fate)
    case TargetChecked => StepTargetChecked(t, r, fate)
    case Changed(room) => StepChanged(t, r, room, fate)
    case Announcing(event) => StepAnnouncing(t, r, event, fate)
    case Deleting => StepDeleting(t, r, fate)
  }

  // ---------- the interleaved machine ----------

  /** `used` are the room ids generated so far; `log` is what the publisher accepted. */
  datatype State = State(tables: Tables, used: set<RoomId>, calls: map<nat, Call>, log: seq<Event>)

  datatype Action =
    | Start(id: nat, request: Request)
    | Advance(id: nat, newId: RoomId, fate: Fate)

  const INITIAL := State(Tables(map[], map[]), {}, map[], [])

  predicate Enabled(s: State, a: Action) {
    match a
    case Start(id, _) => id !in s.calls
    case Advance(id, newId, _) =>
      id in s.calls && !s.calls[id].stage.Finished? && Fits(s.calls[id].request, s.calls[id].stage) && newId !in s.used
  }

  /** One atomic step; an action that is not enabled changes nothing. */
  ghost function Do(s: State, a: Action): State {
    if !Enabled(s, a) then s
    else
      match a
      case Start(id, request) => s.(calls := s.calls[id := Call(request, Begin)])
      case Advance(id, newId, fate) =>
        var e := Step(s.tables, s.calls[id], newId, fate);
        State(e.tables, s.used + {newId}, s.calls[id := s.calls[id].(stage := e.stage)], s.log + e.published)
  }

  ghost function Exec(s: State, actions: seq<Action>): State
    decreases |actions|
  {
    if actions == [] then s else Exec(Do(s, actions[0]), actions[1..])
  }

  lemma {:induction false} ExecAppend(s: State, a: seq<Action>, b: seq<Action>)
    ensures Exec(s, a + b) == Exec(Exec(s, a), b)
    decreases |a|
  {
    if a == [] {
      assert a + b == b;
    } else {
      assert (a + b)[1..] == a[1..] + b;
      ExecAppend(Do(s, a[0]), a[1..], b);
    }
  }

  // ---------- rely and guarantee ----------

  /** What every step promises to the other calls. */
  ghost predicate Guarantee(t: Tables, used: set<RoomId>, t': Tables, used': set<RoomId>) {
    && used <= used'
    && (forall r :: r in t'.rooms && r in used ==>
          r in t.rooms && t'.rooms[r].kind == t.rooms[r].kind && t'.rooms[r].createdBy == t.rooms[r].createdBy)
  }

  /** What a call has checked and still relies on. */
  ghost predicate Relies(t: Tables, used: set<RoomId>, c: Call) {
    var r := c.request;
    Fits(r, c.stage) &&
    (c.stage.RoomChecked? || c.stage.RequesterChecked? || c.stage.TargetChecked? ==>
      && r.room in used
      && ((r.Add? || r.Remove?) && r.room in t.rooms ==> t.rooms[r.room].kind == Group)
      && (c.stage.TargetChecked? && r.room in t.rooms ==> r.user != t.rooms[r.room].createdBy))
  }

  ghost predicate Inv(s: State) {
    && TablesOk(s.tables)
    && s.tables.rooms.Keys <= s.used
    && (forall id :: id in s.calls ==> Relies(s.tables, s.used, s.calls[id]))
  }

  lemma BeginKeepsTables(t: Tables, used: set<RoomId>, r: Request, newId: RoomId, fate: Fate)
    requires TablesOk(t) && t.rooms.Keys <= used && newId !in used
    ensures TablesOk(StepBegin(t, r, newId, fate).tables)
    ensures StepBegin(t, r, newId, fate).tables.rooms.Keys <= used + {newId}
  {
    if r.Create? && !(r.kind == Direct && (r.participant == NIL_USER || r.createdBy == r.participant)) {
      CreateRoomKeeps(t, newId, Room(r.name, r.kind, r.createdBy), r.participant);
    }
  }

  lemma StepKeepsTables(t: Tables, used: set<RoomId>, c: Call, newId: RoomId, fate: Fate)
    requires TablesOk(t) && t.rooms.Keys <= used && newId !in used && Relies(t, used, c) && !c.stage.Finished?
    ensures TablesOk(Step(t, c, newId, fate).tables)
    ensures Step(t, c, newId, fate).tables.rooms.Keys <= used + {newId}
  {
    var r := c.request;
    if c.stage.Begin? {
      BeginKeepsTables(t, used, r, newId, fate);
    } else if c.stage.RequesterChecked? && r.Update? {
      UpdateRoomKeeps(t, r.room, r.name);
    } else if c.stage.RequesterChecked? && r.Add? {
      AddMemberKeeps(t, r.room, r.user);
    } else if c.stage.TargetChecked? {
      RemoveMemberKeeps(t, r.room, r.user);
    } else if c.stage.Deleting? {
      DeleteRoomKeeps(t, r.room);
    } else {
      assert Step(t, c, newId, fate).tables == t;
    }
  }

  lemma StepGuarantees(t: Tables, used: set<RoomId>, c: Call, newId: RoomId, fate: Fate)
    requires t.rooms.Keys <= used && newId !in used && Fits(c.request, c.stage) && !c.stage.Finished?
    ensures Guarantee(t, used, Step(t, c, newId, fate).tables, used + {newId})
  {
  }

  lemma StepEstablishes(t: Tables, used: set<RoomId>, c: Call, newId: RoomId, fate: Fate)
    requires TablesOk(t) && t.rooms.Keys <= used && newId !in used && Relies(t, used, c) && !c.stage.Finished?
    ensures var e := Step(t, c, newId, fate); Relies(e.tables, used + {newId}, c.(stage := e.stage))
  {
    var r := c.request;
    if (c.stage.RoomChecked? || c.stage.RequesterChecked?) && r.Remove? {
      if (r.room, r.requester) in t.members { RoleTellsCreator(t, r.room, r.requester); }
      if (r.room, r.user) in t.members { RoleTellsCreator(t, r.room, r.user); }
    }
  }

  lemma RelianceIsStable(t: Tables, used: set<RoomId>, t': Tables, used': set<RoomId>, c: Call)
    requires Relies(t, used, c) && Guarantee(t, used, t', used')
    ensures Relies(t', used', c)
  {
  }

  lemma DoKeepsInv(s: State, a: Action)
    requires Inv(s)
    ensures Inv(Do(s, a))
    ensures Guarantee(s.tables, s.used, Do(s, a).tables, Do(s, a).used)
  {
    if Enabled(s, a) && a.Advance? {
      var c := s.calls[a.id];
      StepKeepsTables(s.tables, s.used, c, a.newId, a.fate);
      StepGuarantees(s.tables, s.used, c, a.newId, a.fate);
      StepEstablishes(s.tables, s.used, c, a.newId, a.fate);
      var s' := Do(s, a);
      forall id | id in s'.calls ensures Relies(s'.tables, s'.used, s'.calls[id]) {
        if id != a.id {
          RelianceIsStable(s.tables, s.used, s'.tables, s'.used, s.calls[id]);
        }
      }
    }
  }

  lemma {:induction false} ExecKeepsInv(s: State, actions: seq<Action>)
    requires Inv(s)
    ensures Inv(Exec(s, actions))
    ensures Guarantee(s.tables, s.used, Exec(s, actions).tables, Exec(s, actions).used)
    decreases |actions|
  {
    if actions != [] {
      DoKeepsInv(s, actions[0]);
      ExecKeepsInv(Do(s, actions[0]), actions[1..]);
    }
  }

  // ---------- results over every interleaving ----------

  /** In every reachable state each room has exactly one owner row, the one of its creator. */
  lemma EveryRoomHasItsOwner(actions: seq<Action>, room: RoomId)
    requires room in Exec(INITIAL, actions).tables.rooms
    ensures var t := Exec(INITIAL, actions).tables; Owners(t, room) == {t.rooms[room].createdBy}
  {
    ExecKeepsInv(INITIAL, actions);
  }

  /** In every reachable state two users share at most one direct room. */
  lemma AtMostOneDirectRoom(actions: seq<Action>, r1: RoomId, r2: RoomId, u: UserId, v: UserId)
    requires var t := Exec(INITIAL, actions).tables;
             && u != v && r1 in t.rooms && r2 in t.rooms && t.rooms[r1].kind == t.rooms[r2].kind == Direct
             && {u, v} <= Users(t, r1) && {u, v} <= Users(t, r2)
    ensures r1 == r2
  {
    ExecKeepsInv(INITIAL, actions);
    var t := Exec(INITIAL, actions).tables;
    assert HoldsTwo(t, r1) && HoldsTwo(t, r2);
    assert Users(t, r1) == {u, v} == Users(t, r2);
  }

  lemma StepFreezesDirectRooms(t: Tables, used: set<RoomId>, c: Call, newId: RoomId, fate: Fate, room: RoomId)
    requires t.rooms.Keys <= used && newId !in used && Relies(t, used, c) && !c.stage.Finished?
    requires room in t.rooms && t.rooms[room].kind == Direct && room in Step(t, c, newId, fate).tables.rooms
    ensures forall u :: (room, u) in Step(t, c, newId, fate).tables.members <==> (room, u) in t.members
  {
  }

  /** One step leaves the member set of a direct room alone, as long as the room exists. */
  lemma DoFreezesDirectRooms(s: State, a: Action, room: RoomId)
    requires Inv(s) && room in s.tables.rooms && s.tables.rooms[room].kind == Direct
    requires room in Do(s, a).tables.rooms
    ensures Users(Do(s, a).tables, room) == Users(s.tables, room)
  {
    if Enabled(s, a) && a.Advance? {
      var t, t' := s.tables, Do(s, a).tables;
      assert Relies(t, s.used, s.calls[a.id]);
      StepFreezesDirectRooms(t, s.used, s.calls[a.id], a.newId, a.fate, room);
      forall u ensures u in Users(t', room) <==> u in Users(t, room) {
        assert u in Users(t', room) <==> (room, u) in t'.members;
        assert u in Users(t, room) <==> (room, u) in t.members;
      }
    }
  }

  lemma {:induction false} ExecFreezesDirectRooms(s: State, actions: seq<Action>, room: RoomId)
    requires Inv(s) && room in s.tables.rooms && s.tables.rooms[room].kind == Direct
    requires room in Exec(s, actions).tables.rooms
    ensures Users(Exec(s, actions).tables, room) == Users(s.tables, room)
    decreases |actions|
  {
    if actions != [] {
      var s' := Do(s, actions[0]);
      DoKeepsInv(s, actions[0]);
      ExecKeepsInv(s', actions[1..]);
      assert room in s'.used;
      DoFreezesDirectRooms(s, actions[0], room);
      ExecFreezesDirectRooms(s', actions[1..], room);
    }
  }

  /** A direct room has the same two members from its creation to its deletion. */
  lemma DirectRoomsAreFrozen(before: seq<Action>, after: seq<Action>, room: RoomId)
    requires var s := Exec(INITIAL, before);
             && room in s.tables.rooms && s.tables.rooms[room].kind == Direct
             && room in Exec(s, after).tables.rooms
    ensures var s := Exec(INITIAL, before); var t := Exec(s, after).tables;
            && Users(t, room) == Users(s.tables, room)
            && t.rooms[room].kind == Direct
            && HoldsTwo(t, room)
  {
    ExecKeepsInv(INITIAL, before);
    var s := Exec(INITIAL, before);
    ExecKeepsInv(s, after);
    ExecFreezesDirectRooms(s, after, room);
  }
}
