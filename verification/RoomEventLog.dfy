/**
 The event log when calls overlap. A consumer folds the published events into the members of every room;
 here is exactly when that goes wrong although no repository or publisher call fails: when an event that is
 still to be published has become untrue.
 */
module RoomEventLog {
  import opened Wrappers
  import opened RoomTables
  import opened RoomProtocol
  import opened RoomService

  // ---------- what is between its write and its event ----------

  /** What a consumer knows. */
  function Known(s: State): Membership {
    Fold(map[], s.log)
  }

  /** The call has changed this membership and not yet published the change. */
  predicate ChangesMember(c: Call, room: RoomId, user: UserId) {
    && (c.request.Add? || c.request.Remove?) && (c.stage.Changed? || c.stage.Announcing?)
    && c.request.room == room && c.request.user == user
  }

  predicate Pending(calls: map<nat, Call>, id: nat, room: RoomId, user: UserId) {
    id in calls && ChangesMember(calls[id], room, user)
  }

  /** The call has created this room and not yet published the creation. */
  predicate Creates(c: Call, room: RoomId) {
    c.request.Create? && (c.stage == Changed(room) || (c.stage.Announcing? && c.stage.event.room == room))
  }

  ghost predicate Creating(calls: map<nat, Call>, room: RoomId) {
    exists id :: id in calls && Creates(calls[id], room)
  }

  /** The call has published the room's deletion and not yet deleted it. */
  predicate Deletes(c: Call, room: RoomId) {
    c.request.Delete? && c.stage.Deleting? && c.request.room == room
  }

  ghost predicate Deleting(calls: map<nat, Call>, room: RoomId) {
    exists id :: id in calls && Deletes(calls[id], room)
  }

  /** The room is deleted, or announced to be. */
  ghost predicate Doomed(s: State, room: RoomId) {
    room !in s.tables.rooms || Deleting(s.calls, room)
  }

  // ---------- a right log ----------

  /** The consumer knows the room exactly if it is there for good and its creation is published. */
  ghost predicate RoomRight(s: State, room: RoomId) {
    room in Known(s) <==> !Doomed(s, room) && !Creating(s.calls, room)
  }

  /** The consumer is right about a member, unless a change of that membership is still to be published. */
  ghost predicate MemberRight(s: State, room: RoomId, user: UserId) {
    room in Known(s) && (forall id :: !Pending(s.calls, id, room, user)) ==>
      (user in Known(s)[room] <==> IsMember(s.tables, room, user))
  }

  ghost predicate Right(s: State, room: RoomId, user: UserId) {
    RoomRight(s, room) && MemberRight(s, room, user)
  }

  ghost predicate LogRight(s: State) {
    forall room, user :: Right(s, room, user)
  }

  // ---------- untrue events ----------

  /**
   The event that this call has yet to publish is not true any more: a membership change that the table
   contradicts, or a creation whose room is going or whose recipients are no longer the members.
   */
  ghost predicate Stale(s: State, id: nat) {
    && id in s.calls
    && var c := s.calls[id];
       || ((c.request.Add? || c.request.Remove?) && (c.stage.Changed? || c.stage.Announcing?)
           && !Doomed(s, c.request.room) && (c.request.Add? != IsMember(s.tables, c.request.room, c.request.user)))
       || (c.request.Create? && c.stage.Changed? && Doomed(s, c.stage.room))
       || (c.request.Create? && c.stage.Announcing?
           && (Doomed(s, c.stage.event.room) || c.stage.event.recipients != Users(s.tables, c.stage.event.room)))
  }

  ghost predicate NothingStale(s: State) {
    forall id :: !Stale(s, id)
  }

  // ---------- what holds in every run ----------

  predicate IsEventOf(e: Event, r: Request) {
    match r
    case Create(_, _, _, _) => e.RoomCreated?
    case Update(room, _, _) => e.RoomUpdated? && e.room == room
    case Delete(room, _) => e.RoomDeleted? && e.room == room
    case Add(room, user, _) => e.MembershipChanged? && e.room == room && e.user == user && e.added
    case Remove(room, user, _) => e.MembershipChanged? && e.room == room && e.user == user && !e.added
  }

  /** A call past its start is about a room whose id is taken, and its event is about that room. */
  predicate Shaped(used: set<RoomId>, c: Call) {
    && Fits(c.request, c.stage)
    && match c.stage
       case Begin => true
       case Finished(_) => true
       case Changed(room) => room in used && (!c.request.Create? ==> room == c.request.room)
       case Announcing(e) => e.room in used && IsEventOf(e, c.request)
       case RoomChecked => c.request.room in used
       case RequesterChecked => c.request.room in used
       case TargetChecked => c.request.room in used
       case Deleting => c.request.room in used
  }

  ghost predicate Base(s: State) {
    && s.tables.rooms.Keys <= s.used
    && MembersHaveRooms(s.tables)
    && Known(s).Keys <= s.used
    && (forall id :: id in s.calls ==> Shaped(s.used, s.calls[id]))
    && (forall i, j, room :: i in s.calls && j in s.calls && Creates(s.calls[i], room) && Creates(s.calls[j], room) ==>
          i == j)
  }

  lemma FoldOne(m: Membership, log: seq<Event>, e: Event)
    ensures Fold(m, log + [e]) == Learn(Fold(m, log), e)
  {
    assert (log + [e])[..|log|] == log;
  }

  /** The shape of a call after its step, and what the step publishes. */
  lemma StepIsShaped(t: Tables, used: set<RoomId>, c: Call, newId: RoomId, fate: Fate)
    requires t.rooms.Keys <= used && Shaped(used, c) && !c.stage.Finished?
    ensures var e := Step(t, c, newId, fate);
            && Shaped(used + {newId}, Call(c.request, e.stage))
            && (e.published == [] || (c.stage.Announcing? && e.published == [c.stage.event]))
            && (forall room :: Creates(Call(c.request, e.stage), room) ==> Creates(c, room) || room == newId)
  {
  }

  lemma StepKeepsRooms(t: Tables, used: set<RoomId>, c: Call, newId: RoomId, fate: Fate)
    requires t.rooms.Keys <= used && MembersHaveRooms(t) && Shaped(used, c) && !c.stage.Finished?
    ensures var t' := Step(t, c, newId, fate).tables; t'.rooms.Keys <= used + {newId} && MembersHaveRooms(t')
  {
  }

  lemma CallsStayShaped(s: State, a: Action)
    requires Base(s) && Enabled(s, a)
    ensures var s' := Do(s, a); forall id :: id in s'.calls ==> Shaped(s'.used, s'.calls[id])
  {
    if a.Advance? {
      StepIsShaped(s.tables, s.used, s.calls[a.id], a.newId, a.fate);
    }
  }

  lemma CreationsStayUnique(s: State, a: Action, i: nat, j: nat, room: RoomId)
    requires Base(s) && Enabled(s, a)
    requires i in Do(s, a).calls && j in Do(s, a).calls && Creates(Do(s, a).calls[i], room)
    requires Creates(Do(s, a).calls[j], room)
    ensures i == j
  {
    if a.Advance? {
      StepIsShaped(s.tables, s.used, s.calls[a.id], a.newId, a.fate);
    }
  }

  lemma KnownStaysUsed(s: State, a: Action)
    requires Base(s) && Enabled(s, a)
    ensures Known(Do(s, a)).Keys <= Do(s, a).used
  {
    if a.Advance? {
      var c := s.calls[a.id];
      StepIsShaped(s.tables, s.used, c, a.newId, a.fate);
      if Step(s.tables, c, a.newId, a.fate).published == [] {
        assert Do(s, a).log == s.log;
      } else {
        FoldOne(map[], s.log, c.stage.event);
      }
    }
  }

  lemma DoKeepsBase(s: State, a: Action)
    requires Base(s)
    ensures Base(Do(s, a))
  {
    if Enabled(s, a) {
      var s' := Do(s, a);
      CallsStayShaped(s, a);
      KnownStaysUsed(s, a);
      forall i, j, room | i in s'.calls && j in s'.calls && Creates(s'.calls[i], room) && Creates(s'.calls[j], room)
        ensures i == j
      {
        CreationsStayUnique(s, a, i, j, room);
      }
      if a.Advance? {
        StepKeepsRooms(s.tables, s.used, s.calls[a.id], a.newId, a.fate);
      }
    }
  }

  lemma {:induction false} ExecKeepsBase(s: State, actions: seq<Action>)
    requires Base(s)
    ensures Base(Exec(s, actions))
    decreases |actions|
  {
    if actions != [] {
      DoKeepsBase(s, actions[0]);
      ExecKeepsBase(Do(s, actions[0]), actions[1..]);
    }
  }

  // ---------- true events keep the log right ----------

  /** One working step of a call, and what it leaves alone. */
  lemma Advanced(s: State, id: nat, newId: RoomId) returns (s': State, e: Effect)
    requires Base(s) && Enabled(s, Advance(id, newId, Works))
    ensures s' == Do(s, Advance(id, newId, Works)) && e == Step(s.tables, s.calls[id], newId, Works)
    ensures s'.tables == e.tables && s'.calls == s.calls[id := Call(s.calls[id].request, e.stage)]
    ensures Known(s') == if e.published == [] then Known(s) else Learn(Known(s), s.calls[id].stage.event)
    ensures e.published != [] ==> s.calls[id].stage.Announcing?
  {
    s', e := Do(s, Advance(id, newId, Works)), Step(s.tables, s.calls[id], newId, Works);
    StepIsShaped(s.tables, s.used, s.calls[id], newId, Works);
    if e.published == [] {
      assert s'.log == s.log;
    } else {
      FoldOne(map[], s.log, s.calls[id].stage.event);
    }
  }

  /** A step that touches neither the member nor what is pending, nor what is known of the room. */
  lemma QuietKeepsRight(s: State, s': State, id: nat, room: RoomId, user: UserId)
    requires Right(s, room, user) && id in s.calls && id in s'.calls && s'.calls == s.calls[id := s'.calls[id]]
    requires room in s'.tables.rooms <==> room in s.tables.rooms
    requires IsMember(s'.tables, room, user) <==> IsMember(s.tables, room, user)
    requires room in Known(s') <==> room in Known(s)
    requires room in Known(s) ==> Known(s')[room] == Known(s)[room]
    requires ChangesMember(s'.calls[id], room, user) == ChangesMember(s.calls[id], room, user)
    requires Creates(s'.calls[id], room) == Creates(s.calls[id], room)
    requires Deletes(s'.calls[id], room) == Deletes(s.calls[id], room)
    ensures Right(s', room, user)
  {
    assert forall i :: Pending(s'.calls, i, room, user) <==> Pending(s.calls, i, room, user);
    CreatingUnmoved(s, s', id, room);
    DeletingUnmoved(s, s', id, room);
  }

  lemma CreatingUnmoved(s: State, s': State, id: nat, room: RoomId)
    requires id in s.calls && id in s'.calls && s'.calls == s.calls[id := s'.calls[id]]
    requires Creates(s'.calls[id], room) == Creates(s.calls[id], room)
    ensures Creating(s'.calls, room) <==> Creating(s.calls, room)
  {
    if Creating(s.calls, room) {
      var i :| i in s.calls && Creates(s.calls[i], room);
      assert i in s'.calls && Creates(s'.calls[i], room);
    }
    if Creating(s'.calls, room) {
      var i :| i in s'.calls && Creates(s'.calls[i], room);
      assert i in s.calls && Creates(s.calls[i], room);
    }
  }

  lemma DeletingUnmoved(s: State, s': State, id: nat, room: RoomId)
    requires id in s.calls && id in s'.calls && s'.calls == s.calls[id := s'.calls[id]]
    requires Deletes(s'.calls[id], room) == Deletes(s.calls[id], room)
    ensures Deleting(s'.calls, room) <==> Deleting(s.calls, room)
  {
    if Deleting(s.calls, room) {
      var i :| i in s.calls && Deletes(s.calls[i], room);
      assert i in s'.calls && Deletes(s'.calls[i], room);
    }
    if Deleting(s'.calls, room) {
      var i :| i in s'.calls && Deletes(s'.calls[i], room);
      assert i in s.calls && Deletes(s.calls[i], room);
    }
  }

  lemma UpdateKeepsRight(s: State, id: nat, newId: RoomId, room: RoomId, user: UserId)
    requires Base(s) && Enabled(s, Advance(id, newId, Works)) && s.calls[id].request.Update?
    requires Right(s, room, user)
    ensures Right(Do(s, Advance(id, newId, Works)), room, user)
  {
    var s', e := Advanced(s, id, newId);
    QuietKeepsRight(s, s', id, room, user);
  }

  lemma AddOrRemoveKeepsRight(s: State, id: nat, newId: RoomId, room: RoomId, user: UserId)
    requires Base(s) && Enabled(s, Advance(id, newId, Works))
    requires s.calls[id].request.Add? || s.calls[id].request.Remove?
    requires Right(s, room, user) && !Stale(s, id)
    ensures Right(Do(s, Advance(id, newId, Works)), room, user)
  {
    var s', e := Advanced(s, id, newId);
    var c := s.calls[id];
    if (c.request.room, c.request.user) == (room, user) && (c.stage.Announcing? || e.stage.Changed?) {
      CreatingUnmoved(s, s', id, room);
      DeletingUnmoved(s, s', id, room);
      assert e.stage.Changed? ==> Pending(s'.calls, id, room, user);
    } else {
      ElsewhereKeepsRight(s, s', id, room, user);
    }
  }

  /** A change of another membership, or its event. */
  lemma ElsewhereKeepsRight(s: State, s': State, id: nat, room: RoomId, user: UserId)
    requires Right(s, room, user) && id in s.calls && id in s'.calls && s'.calls == s.calls[id := s'.calls[id]]
    requires s'.tables.rooms == s.tables.rooms
    requires IsMember(s'.tables, room, user) <==> IsMember(s.tables, room, user)
    requires room in Known(s') <==> room in Known(s)
    requires room in Known(s) ==> (user in Known(s')[room] <==> user in Known(s)[room])
    requires ChangesMember(s'.calls[id], room, user) == ChangesMember(s.calls[id], room, user)
    requires s.calls[id].request == s'.calls[id].request && (s.calls[id].request.Add? || s.calls[id].request.Remove?)
    ensures Right(s', room, user)
  {
    assert forall i :: Pending(s'.calls, i, room, user) <==> Pending(s.calls, i, room, user);
    CreatingUnmoved(s, s', id, room);
    DeletingUnmoved(s, s', id, room);
  }

  /** The transaction: the new room is known to nobody, and its creation is pending. */
  lemma CreationKeepsRight(s: State, id: nat, newId: RoomId, room: RoomId, user: UserId)
    requires Base(s) && Enabled(s, Advance(id, newId, Works)) && s.calls[id].request.Create? && s.calls[id].stage.Begin?
    requires Right(s, room, user)
    ensures Right(Do(s, Advance(id, newId, Works)), room, user)
  {
    var s', e := Advanced(s, id, newId);
    if e.stage.Changed? && room == newId {
      assert id in s'.calls && Creates(s'.calls[id], room);
      assert room !in Known(s');
    } else {
      QuietKeepsRight(s, s', id, room, user);
    }
  }

  /** The creation's event, with recipients that are still the members. */
  lemma CreatedEventKeepsRight(s: State, id: nat, newId: RoomId, room: RoomId, user: UserId)
    requires Base(s) && Enabled(s, Advance(id, newId, Works)) && s.calls[id].request.Create?
    requires s.calls[id].stage.Announcing?
    requires Right(s, room, user) && !Stale(s, id)
    ensures Right(Do(s, Advance(id, newId, Works)), room, user)
  {
    var s', e := Advanced(s, id, newId);
    var event := s.calls[id].stage.event;
    if room == event.room {
      OnlyOneCreates(s, s', id, room);
      DeletingUnmoved(s, s', id, room);
      MembersAreTold(s', room, user);
    } else {
      QuietKeepsRight(s, s', id, room, user);
    }
  }

  /** A room whose members are known and that is neither going nor still to be announced. */
  lemma MembersAreTold(s: State, room: RoomId, user: UserId)
    requires room in Known(s) && Known(s)[room] == Users(s.tables, room) && !Doomed(s, room) && !Creating(s.calls, room)
    ensures Right(s, room, user)
  {
    assert user in Users(s.tables, room) <==> IsMember(s.tables, room, user);
  }

  lemma OnlyOneCreates(s: State, s': State, id: nat, room: RoomId)
    requires Base(s) && id in s.calls && Creates(s.calls[id], room)
    requires id in s'.calls && s'.calls == s.calls[id := s'.calls[id]] && !Creates(s'.calls[id], room)
    ensures !Creating(s'.calls, room)
  {
    forall i | i in s'.calls ensures !Creates(s'.calls[i], room) {
      assert i != id ==> !Creates(s.calls[i], room);
    }
  }

  lemma CreateKeepsRight(s: State, id: nat, newId: RoomId, room: RoomId, user: UserId)
    requires Base(s) && Enabled(s, Advance(id, newId, Works)) && s.calls[id].request.Create?
    requires Right(s, room, user) && !Stale(s, id)
    ensures Right(Do(s, Advance(id, newId, Works)), room, user)
  {
    if s.calls[id].stage.Begin? {
      CreationKeepsRight(s, id, newId, room, user);
    } else if s.calls[id].stage.Announcing? {
      CreatedEventKeepsRight(s, id, newId, room, user);
    } else {
      var s', e := Advanced(s, id, newId);
      QuietKeepsRight(s, s', id, room, user);
    }
  }

  lemma DoomedIsUnknown(s: State, room: RoomId, user: UserId)
    requires room !in Known(s) && Doomed(s, room)
    ensures Right(s, room, user)
  {
  }

  /** The deletion's event: the consumer forgets the room, which is doomed from now on. */
  lemma DeletedEventKeepsRight(s: State, id: nat, newId: RoomId, room: RoomId, user: UserId)
    requires Base(s) && Enabled(s, Advance(id, newId, Works)) && s.calls[id].request.Delete?
    requires s.calls[id].stage.Announcing?
    requires Right(s, room, user)
    ensures Right(Do(s, Advance(id, newId, Works)), room, user)
  {
    var s' := AnnouncesDeletion(s, id, newId);
    if room == s.calls[id].request.room {
      assert Deletes(s'.calls[id], room);
      DoomedIsUnknown(s', room, user);
    } else {
      QuietKeepsRight(s, s', id, room, user);
    }
  }

  lemma AnnouncesDeletion(s: State, id: nat, newId: RoomId) returns (s': State)
    requires Base(s) && Enabled(s, Advance(id, newId, Works)) && s.calls[id].request.Delete?
    requires s.calls[id].stage.Announcing?
    ensures s' == Do(s, Advance(id, newId, Works)) && s'.tables == s.tables
    ensures s'.calls == s.calls[id := Call(s.calls[id].request, Stage.Deleting)]
    ensures Known(s') == Known(s) - {s.calls[id].request.room}
  {
    var e;
    s', e := Advanced(s, id, newId);
    assert Shaped(s.used, s.calls[id]);
  }

  /** The deletion itself: the room was doomed and still is. */
  lemma DeletionKeepsRight(s: State, id: nat, newId: RoomId, room: RoomId, user: UserId)
    requires Base(s) && Enabled(s, Advance(id, newId, Works)) && s.calls[id].request.Delete?
    requires s.calls[id].stage.Deleting?
    requires Right(s, room, user)
    ensures Right(Do(s, Advance(id, newId, Works)), room, user)
  {
    var s', e := Advanced(s, id, newId);
    if room == s.calls[id].request.room {
      assert Deletes(s.calls[id], room);
      DoomedIsUnknown(s', room, user);
    } else {
      QuietKeepsRight(s, s', id, room, user);
    }
  }

  lemma DeleteKeepsRight(s: State, id: nat, newId: RoomId, room: RoomId, user: UserId)
    requires Base(s) && Enabled(s, Advance(id, newId, Works)) && s.calls[id].request.Delete?
    requires Right(s, room, user)
    ensures Right(Do(s, Advance(id, newId, Works)), room, user)
  {
    if s.calls[id].stage.Announcing? {
      DeletedEventKeepsRight(s, id, newId, room, user);
    } else if s.calls[id].stage.Deleting? {
      DeletionKeepsRight(s, id, newId, room, user);
    } else {
      var s', e := Advanced(s, id, newId);
      QuietKeepsRight(s, s', id, room, user);
    }
  }

  lemma StepKeepsRight(s: State, id: nat, newId: RoomId, room: RoomId, user: UserId)
    requires Base(s) && Enabled(s, Advance(id, newId, Works)) && !Stale(s, id) && Right(s, room, user)
    ensures Right(Do(s, Advance(id, newId, Works)), room, user)
  {
    match s.calls[id].request
    case Create(_, _, _, _) => CreateKeepsRight(s, id, newId, room, user);
    case Update(_, _, _) => UpdateKeepsRight(s, id, newId, room, user);
    case Delete(_, _) => DeleteKeepsRight(s, id, newId, room, user);
    case Add(_, _, _) => AddOrRemoveKeepsRight(s, id, newId, room, user);
    case Remove(_, _, _) => AddOrRemoveKeepsRight(s, id, newId, room, user);
  }

  lemma StartKeepsRight(s: State, id: nat, request: Request, room: RoomId, user: UserId)
    requires id !in s.calls && Right(s, room, user)
    ensures Right(Do(s, Start(id, request)), room, user)
  {
    var s' := Do(s, Start(id, request));
    assert forall i :: Pending(s'.calls, i, room, user) <==> Pending(s.calls, i, room, user);
    assert Creating(s'.calls, room) <==> Creating(s.calls, room) by {
      assert forall i :: i in s.calls && Creates(s.calls[i], room) ==> i in s'.calls && Creates(s'.calls[i], room);
    }
    assert Deleting(s'.calls, room) <==> Deleting(s.calls, room) by {
      assert forall i :: i in s.calls && Deletes(s.calls[i], room) ==> i in s'.calls && Deletes(s'.calls[i], room);
    }
  }

  predicate WorksAlways(actions: seq<Action>) {
    forall i :: 0 <= i < |actions| && actions[i].Advance? ==> actions[i].fate == Works
  }

  lemma DoKeepsLogRight(s: State, a: Action)
    requires Base(s) && NothingStale(s) && LogRight(s) && (a.Advance? ==> a.fate == Works)
    ensures LogRight(Do(s, a))
  {
    if Enabled(s, a) {
      var s' := Do(s, a);
      forall room, user ensures Right(s', room, user) {
        if a.Advance? {
          StepKeepsRight(s, a.id, a.newId, room, user);
        } else {
          StartKeepsRight(s, a.id, a.request, room, user);
        }
      }
    }
  }

  /** At no point of the run is there an untrue event. */
  ghost predicate NeverStale(s: State, actions: seq<Action>) {
    forall i :: 0 <= i <= |actions| ==> NothingStale(Exec(s, actions[..i]))
  }

  lemma NeverStaleAfter(s: State, actions: seq<Action>)
    requires NeverStale(s, actions) && actions != []
    ensures NothingStale(s) && NeverStale(Do(s, actions[0]), actions[1..])
  {
    assert actions[..0] == [] && NothingStale(Exec(s, actions[..0]));
    forall i | 0 <= i <= |actions[1..]| ensures NothingStale(Exec(Do(s, actions[0]), actions[1..][..i])) {
      assert actions[..i + 1][1..] == actions[1..][..i];
      assert NothingStale(Exec(s, actions[..i + 1]));
    }
  }

  lemma {:induction false} ExecKeepsLogRight(s: State, actions: seq<Action>)
    requires Base(s) && LogRight(s) && WorksAlways(actions) && NeverStale(s, actions)
    ensures LogRight(Exec(s, actions))
    decreases |actions|
  {
    if actions != [] {
      NeverStaleAfter(s, actions);
      DoKeepsLogRight(s, actions[0]);
      DoKeepsBase(s, actions[0]);
      ExecKeepsLogRight(Do(s, actions[0]), actions[1..]);
    }
  }

  lemma InitiallyRight()
    ensures Base(INITIAL) && LogRight(INITIAL) && NothingStale(INITIAL)
  {
    assert Known(INITIAL) == map[];
    forall room, user ensures Right(INITIAL, room, user) {
      assert Doomed(INITIAL, room);
    }
  }

  /**
   For every run whose steps all work, overlapping in any way: as long as no pending event has become
   untrue, what the log tells agrees with the tables wherever nothing is pending.
   */
  lemma TrueEventsKeepTheLogRight(actions: seq<Action>)
    requires WorksAlways(actions) && NeverStale(INITIAL, actions)
    ensures LogRight(Exec(INITIAL, actions))
  {
    InitiallyRight();
    ExecKeepsLogRight(INITIAL, actions);
  }

  // ---------- settling: publishing what is pending ----------

  /** The call has made its change, or announced its deletion, and what is left is to say or to do so. */
  predicate Settling(c: Call) {
    c.stage.Changed? || (c.stage.Announcing? && !c.request.Delete?) || c.stage.Deleting?
  }

  /** A working schedule in which no call does anything but settle. */
  ghost predicate Settles(s: State, actions: seq<Action>)
    decreases |actions|
  {
    actions == [] ||
    (&& actions[0].Advance? && actions[0].fate == Works && Enabled(s, actions[0]) && Settling(s.calls[actions[0].id])
     && Settles(Do(s, actions[0]), actions[1..]))
  }

  /** A number larger than all of the set. */
  lemma {:induction false} Above(s: set<nat>) returns (n: nat)
    ensures forall x: nat :: x in s ==> x < n
  {
    if s == {} {
      n := 0;
    } else {
      var x :| x in s;
      var m := Above(s - {x});
      n := if x < m then m else x + 1;
      forall y: nat | y in s ensures y < n {
        assert y == x || y in s - {x};
      }
    }
  }

  lemma {:induction false} SettlesAppend(s: State, a: seq<Action>, b: seq<Action>)
    requires Settles(s, a) && Settles(Exec(s, a), b)
    ensures Settles(s, a + b) && Exec(s, a + b) == Exec(Exec(s, a), b)
    decreases |a|
  {
    if a == [] {
      assert a + b == b;
    } else {
      assert (a + b)[1..] == a[1..] + b;
      SettlesAppend(Do(s, a[0]), a[1..], b);
    }
  }

  lemma SettleStep(s: State, id: nat) returns (s': State, actions: seq<Action>, e: Effect)
    requires Base(s) && id in s.calls && Settling(s.calls[id])
    ensures Settles(s, actions) && s' == Exec(s, actions) && Base(s')
    ensures exists newId :: e == Step(s.tables, s.calls[id], newId, Works)
    ensures s'.tables == e.tables && s'.calls == s.calls[id := Call(s.calls[id].request, e.stage)]
    ensures Known(s') == if e.published == [] then Known(s) else Learn(Known(s), s.calls[id].stage.event)
    ensures e.published != [] ==> s.calls[id].stage.Announcing?
  {
    var newId := Above(s.used);
    assert newId !in s.used;
    s', e := Advanced(s, id, newId);
    actions := [Advance(id, newId, Works)];
    assert actions[1..] == [];
    DoKeepsBase(s, actions[0]);
  }

  /** A call publishes its event, reading the recipients first if it has yet to. */
  lemma Finishes(s: State, id: nat) returns (s': State, actions: seq<Action>, told: Event)
    requires Base(s) && id in s.calls && Settling(s.calls[id]) && !s.calls[id].stage.Deleting?
    ensures Settles(s, actions) && s' == Exec(s, actions) && Base(s')
    ensures s'.tables == s.tables && s'.calls == s.calls[id := Call(s.calls[id].request, Finished(Ok(())))]
    ensures Known(s') == Learn(Known(s), told) && IsEventOf(told, s.calls[id].request)
    ensures s.calls[id].stage.Announcing? ==> told == s.calls[id].stage.event
    ensures s.calls[id].stage.Changed? ==> told.room == s.calls[id].stage.room
  {
    if s.calls[id].stage.Announcing? {
      var e;
      s', actions, e := SettleStep(s, id);
      told := s.calls[id].stage.event;
    } else {
      var s1, actions1, e1 := SettleStep(s, id);
      told := e1.stage.event;
      var s2, actions2, e2 := SettleStep(s1, id);
      s', actions := s2, actions1 + actions2;
      SettlesAppend(s, actions1, actions2);
      assert s'.calls == s.calls[id := Call(s.calls[id].request, Finished(Ok(())))];
    }
  }

  ghost function OthersPending(s: State, x: nat, room: RoomId, user: UserId): set<nat> {
    set id | id in s.calls && id != x && ChangesMember(s.calls[id], room, user)
  }

  /** All other calls publish their changes of one membership. */
  lemma {:induction false} OthersFinish(s: State, x: nat, room: RoomId, user: UserId)
    returns (s': State, actions: seq<Action>)
    requires Base(s) && x in s.calls
    ensures Settles(s, actions) && s' == Exec(s, actions) && Base(s')
    ensures s'.tables == s.tables && x in s'.calls && s'.calls[x] == s.calls[x]
    ensures forall id :: id != x ==> !Pending(s'.calls, id, room, user)
    ensures room in Known(s) ==> room in Known(s')
    decreases |OthersPending(s, x, room, user)|
  {
    if OthersPending(s, x, room, user) == {} {
      s', actions := s, [];
      forall id | id != x ensures !Pending(s.calls, id, room, user) {
        assert id !in OthersPending(s, x, room, user);
      }
    } else {
      var id :| id in OthersPending(s, x, room, user);
      var s1, actions1, told := Finishes(s, id);
      assert OthersPending(s1, x, room, user) == OthersPending(s, x, room, user) - {id};
      var s2, actions2 := OthersFinish(s1, x, room, user);
      s', actions := s2, actions1 + actions2;
      SettlesAppend(s, actions1, actions2);
    }
  }

  lemma NonePending(s: State, s': State, x: nat, room: RoomId, user: UserId)
    requires x in s.calls && s'.calls == s.calls[x := Call(s.calls[x].request, Finished(Ok(())))]
    requires forall id :: id != x ==> !Pending(s.calls, id, room, user)
    ensures forall id :: !Pending(s'.calls, id, room, user)
  {
    forall id ensures !Pending(s'.calls, id, room, user) {
      assert id != x ==> !Pending(s.calls, id, room, user);
    }
  }

  /** A room that is being created gets known. */
  lemma CreationFinishes(s: State, x: nat, room: RoomId) returns (s': State, actions: seq<Action>)
    requires Base(s) && x in s.calls && !s.calls[x].request.Create? && (room in Known(s) || Creating(s.calls, room))
    ensures Settles(s, actions) && s' == Exec(s, actions) && Base(s')
    ensures s'.tables == s.tables && x in s'.calls && s'.calls[x] == s.calls[x]
    ensures room in Known(s')
  {
    if Creating(s.calls, room) {
      var c :| c in s.calls && Creates(s.calls[c], room);
      var told;
      s', actions, told := Finishes(s, c);
    } else {
      s', actions := s, [];
    }
  }

  /** An untrue membership event is published last and leaves the consumer wrong about that member. */
  lemma StaleChangeMisleads(s: State, x: nat) returns (after: seq<Action>)
    requires Base(s) && LogRight(s) && Stale(s, x) && !s.calls[x].request.Create?
    ensures Settles(s, after) && !LogRight(Exec(s, after))
  {
    var r := s.calls[x].request;
    assert Right(s, r.room, r.user);
    var s1, actions1 := CreationFinishes(s, x, r.room);
    var s2, actions2 := OthersFinish(s1, x, r.room, r.user);
    var s3, actions3, told := Finishes(s2, x);
    SettlesAppend(s1, actions2, actions3);
    SettlesAppend(s, actions1, actions2 + actions3);
    after := actions1 + (actions2 + actions3);
    NonePending(s2, s3, x, r.room, r.user);
    assert IsMember(s3.tables, r.room, r.user) <==> IsMember(s.tables, r.room, r.user);
    assert r.user in Known(s3)[r.room] <==> r.Add?;
    assert !Right(s3, r.room, r.user);
  }

  /** A creation with outdated recipients, published last. */
  lemma OutdatedCreationMisleads(s: State, x: nat) returns (after: seq<Action>)
    requires Base(s) && x in s.calls && s.calls[x].request.Create? && s.calls[x].stage.Announcing?
    requires s.calls[x].stage.event.recipients != Users(s.tables, s.calls[x].stage.event.room)
    ensures Settles(s, after) && !LogRight(Exec(s, after))
  {
    var event := s.calls[x].stage.event;
    var members := Users(s.tables, event.room);
    var user: UserId :| user in event.recipients <==> user !in members;
    var s1, actions1 := OthersFinish(s, x, event.room, user);
    var s2, actions2, told := Finishes(s1, x);
    SettlesAppend(s, actions1, actions2);
    after := actions1 + actions2;
    NonePending(s1, s2, x, event.room, user);
    assert user in members <==> IsMember(s2.tables, event.room, user);
    assert Known(s2)[event.room] == event.recipients;
    assert !Right(s2, event.room, user);
  }

  /** A creation that is published after the room's deletion. */
  lemma DoomedCreationMisleads(s: State, x: nat, room: RoomId) returns (after: seq<Action>)
    requires Base(s) && x in s.calls && Creates(s.calls[x], room) && Doomed(s, room)
    ensures Settles(s, after) && !LogRight(Exec(s, after))
  {
    var s1, actions1 := DeletionFinishes(s, x, room);
    var s2, actions2, told := Finishes(s1, x);
    SettlesAppend(s, actions1, actions2);
    after := actions1 + actions2;
    assert Doomed(s2, room) && room in Known(s2);
    assert !Right(s2, room, 0);
  }

  lemma DeletionFinishes(s: State, x: nat, room: RoomId) returns (s': State, actions: seq<Action>)
    requires Base(s) && x in s.calls && s.calls[x].request.Create? && Doomed(s, room)
    ensures Settles(s, actions) && s' == Exec(s, actions) && Base(s')
    ensures x in s'.calls && s'.calls[x] == s.calls[x] && room !in s'.tables.rooms
  {
    if room in s.tables.rooms {
      var d :| d in s.calls && Deletes(s.calls[d], room);
      var e;
      s', actions, e := SettleStep(s, d);
    } else {
      s', actions := s, [];
    }
  }

  /** From any state with an untrue event, settling alone can make the log wrong. */
  lemma StaleMisleads(s: State, x: nat) returns (after: seq<Action>)
    requires Base(s) && Stale(s, x)
    ensures Settles(s, after) && !LogRight(Exec(s, after))
  {
    var c := s.calls[x];
    if !LogRight(s) {
      after := [];
    } else if !c.request.Create? {
      after := StaleChangeMisleads(s, x);
    } else if c.stage.Changed? {
      after := DoomedCreationMisleads(s, x, c.stage.room);
    } else if Doomed(s, c.stage.event.room) {
      after := DoomedCreationMisleads(s, x, c.stage.event.room);
    } else {
      after := OutdatedCreationMisleads(s, x);
    }
  }

  // ---------- the exact condition ----------

  /** The room that a call's change was about. */
  function RoomOf(c: Call): RoomId
    requires c.stage.Changed? || c.stage.Announcing?
  {
    if !c.request.Create? then c.request.room else if c.stage.Changed? then c.stage.room else c.stage.event.room
  }

  lemma SettlingKeepsDoom(s: State, id: nat, newId: RoomId, room: RoomId)
    requires Base(s) && Enabled(s, Advance(id, newId, Works)) && Settling(s.calls[id])
    ensures var s' := Do(s, Advance(id, newId, Works));
            && (Doomed(s', room) <==> Doomed(s, room))
            && (!Doomed(s, room) ==> Users(s'.tables, room) == Users(s.tables, room))
  {
    var s', e := Advanced(s, id, newId);
    var c := s.calls[id];
    if c.stage.Deleting? && c.request.room == room {
      assert Deletes(c, room);
    } else {
      DeletingUnmoved(s, s', id, room);
      forall u ensures u in Users(s'.tables, room) <==> u in Users(s.tables, room) {
        assert u in Users(s'.tables, room) <==> (room, u) in s'.tables.members;
        assert u in Users(s.tables, room) <==> (room, u) in s.tables.members;
      }
    }
  }

  /** Settling makes no event untrue. */
  lemma SettlingKeepsTruth(s: State, id: nat, newId: RoomId, other: nat)
    requires Base(s) && Enabled(s, Advance(id, newId, Works)) && Settling(s.calls[id])
    requires !Stale(s, id) && !Stale(s, other)
    ensures !Stale(Do(s, Advance(id, newId, Works)), other)
  {
    var s', e := Advanced(s, id, newId);
    if other in s.calls && Settling(s.calls[other]) && !s.calls[other].stage.Deleting? {
      var c := s.calls[other];
      var room := RoomOf(c);
      SettlingKeepsDoom(s, id, newId, room);
      if c.request.Add? || c.request.Remove? {
        assert IsMember(s.tables, room, c.request.user) <==> c.request.user in Users(s.tables, room);
        assert IsMember(s'.tables, room, c.request.user) <==> c.request.user in Users(s'.tables, room);
      }
    }
  }

  lemma {:induction false} SettlingKeepsLogRight(s: State, after: seq<Action>)
    requires Base(s) && LogRight(s) && NothingStale(s) && Settles(s, after)
    ensures LogRight(Exec(s, after))
    decreases |after|
  {
    if after != [] {
      var a := after[0];
      DoKeepsLogRight(s, a);
      DoKeepsBase(s, a);
      forall other ensures !Stale(Do(s, a), other) {
        SettlingKeepsTruth(s, a.id, a.newId, other);
      }
      SettlingKeepsLogRight(Do(s, a), after[1..]);
    }
  }

  /** In whatever order what is pending gets published, the log is right. */
  ghost predicate Reliable(s: State) {
    forall after :: Settles(s, after) ==> LogRight(Exec(s, after))
  }

  ghost predicate AlwaysReliable(s: State, actions: seq<Action>) {
    forall i :: 0 <= i <= |actions| ==> Reliable(Exec(s, actions[..i]))
  }

  /**
   The exact condition, for every run whose steps all work: in whatever order its pending events are
   published at whatever point, the log is right, if and only if no pending event ever becomes untrue.
   */
  lemma LogIsReliableExactlyIfNeverStale(actions: seq<Action>)
    requires WorksAlways(actions)
    ensures AlwaysReliable(INITIAL, actions) <==> NeverStale(INITIAL, actions)
  {
    InitiallyRight();
    forall i | 0 <= i <= |actions| && NeverStale(INITIAL, actions) ensures Reliable(Exec(INITIAL, actions[..i])) {
      var s := Exec(INITIAL, actions[..i]);
      ExecKeepsBase(INITIAL, actions[..i]);
      PrefixIsNeverStale(INITIAL, actions, i);
      ExecKeepsLogRight(INITIAL, actions[..i]);
      forall after | Settles(s, after) ensures LogRight(Exec(s, after)) {
        SettlingKeepsLogRight(s, after);
      }
    }
    forall i | 0 <= i <= |actions| && AlwaysReliable(INITIAL, actions)
      ensures NothingStale(Exec(INITIAL, actions[..i]))
    {
      var s := Exec(INITIAL, actions[..i]);
      ExecKeepsBase(INITIAL, actions[..i]);
      assert Reliable(s);
      forall id ensures !Stale(s, id) {
        if Stale(s, id) {
          var after := StaleMisleads(s, id);
          assert false;
        }
      }
    }
  }

  lemma PrefixIsNeverStale(s: State, actions: seq<Action>, i: nat)
    requires NeverStale(s, actions) && i <= |actions|
    ensures NeverStale(s, actions[..i]) && NothingStale(Exec(s, actions[..i]))
  {
    forall j | 0 <= j <= i ensures NothingStale(Exec(s, actions[..i][..j])) {
      assert actions[..i][..j] == actions[..j];
    }
  }

  // ---------- calls one at a time on each room ----------

  /** The call is about this room, past its start, and not finished. */
  predicate Active(c: Call, room: RoomId) {
    && !c.stage.Begin? && !c.stage.Finished?
    && if c.request.Create? then Creates(c, room) else c.request.room == room
  }

  ghost predicate OneByOne(s: State) {
    forall i, j, room :: i in s.calls && j in s.calls && Active(s.calls[i], room) && Active(s.calls[j], room) ==> i == j
  }

  /** Calls on one room do not overlap at any point of the run; calls on different rooms may. */
  ghost predicate AlwaysOneByOne(s: State, actions: seq<Action>) {
    forall i :: 0 <= i <= |actions| ==> OneByOne(Exec(s, actions[..i]))
  }

  /** A step leaves the rooms alone on which its call is not active. */
  lemma StepStaysInItsRoom(s: State, id: nat, newId: RoomId, room: RoomId)
    requires Base(s) && Enabled(s, Advance(id, newId, Works))
    requires room in s.used && !Active(s.calls[id], room)
    ensures var s' := Do(s, Advance(id, newId, Works));
            (Doomed(s', room) <==> Doomed(s, room)) && Users(s'.tables, room) == Users(s.tables, room)
  {
    var s', e := Advanced(s, id, newId);
    DeletingUnmoved(s, s', id, room);
    StepWritesItsRoom(s.tables, s.used, s.calls[id], newId, room);
    forall u ensures u in Users(s'.tables, room) <==> u in Users(s.tables, room) {
      assert u in Users(s'.tables, room) <==> (room, u) in s'.tables.members;
      assert u in Users(s.tables, room) <==> (room, u) in s.tables.members;
    }
  }

  lemma StepWritesItsRoom(t: Tables, used: set<RoomId>, c: Call, newId: RoomId, room: RoomId)
    requires Shaped(used, c) && !c.stage.Finished? && newId !in used && room in used && !Active(c, room)
    ensures var t' := Step(t, c, newId, Works).tables;
            && (room in t'.rooms <==> room in t.rooms)
            && (forall u :: (room, u) in t'.members <==> (room, u) in t.members)
  {
  }

  /** A call's own step leaves its pending event true. */
  lemma OwnEventIsTrue(s: State, id: nat, newId: RoomId)
    requires Base(s) && Enabled(s, Advance(id, newId, Works)) && !Stale(s, id)
    ensures !Stale(Do(s, Advance(id, newId, Works)), id)
  {
    var s', e := Advanced(s, id, newId);
    var c := s.calls[id];
    if c.request.Create? && c.stage.Begin? && e.stage.Changed? {
      assert newId in s'.tables.rooms;
      assert !Deleting(s'.calls, newId);
    } else if c.request.Create? && c.stage.Changed? {
      DeletingUnmoved(s, s', id, c.stage.room);
    } else if (c.request.Add? || c.request.Remove?) && c.stage.Changed? {
      DeletingUnmoved(s, s', id, c.request.room);
    }
  }

  lemma OneByOneKeepsTruth(s: State, a: Action)
    requires Base(s) && NothingStale(s) && OneByOne(s) && (a.Advance? ==> a.fate == Works)
    ensures NothingStale(Do(s, a))
  {
    if Enabled(s, a) && a.Advance? {
      forall other ensures !Stale(Do(s, a), other) {
        if other == a.id {
          OwnEventIsTrue(s, a.id, a.newId);
        } else {
          OthersEventStaysTrue(s, a.id, a.newId, other);
        }
      }
    } else if Enabled(s, a) {
      var s' := Do(s, a);
      forall other ensures !Stale(s', other) {
        StartKeepsTruth(s, a.id, a.request, other);
      }
    }
  }

  lemma StartKeepsTruth(s: State, id: nat, request: Request, other: nat)
    requires id !in s.calls && !Stale(s, other)
    ensures !Stale(Do(s, Start(id, request)), other)
  {
    var s' := Do(s, Start(id, request));
    forall room ensures Deleting(s'.calls, room) <==> Deleting(s.calls, room) {
      assert forall i :: i in s.calls && Deletes(s.calls[i], room) ==> i in s'.calls && Deletes(s'.calls[i], room);
    }
  }

  lemma OthersEventStaysTrue(s: State, id: nat, newId: RoomId, other: nat)
    requires Base(s) && OneByOne(s) && Enabled(s, Advance(id, newId, Works)) && !Stale(s, other) && other != id
    ensures !Stale(Do(s, Advance(id, newId, Works)), other)
  {
    var s', e := Advanced(s, id, newId);
    if other in s.calls && Settling(s.calls[other]) && !s.calls[other].stage.Deleting? {
      var c := s.calls[other];
      var room := RoomOf(c);
      assert Active(c, room);
      StepStaysInItsRoom(s, id, newId, room);
      if c.request.Add? || c.request.Remove? {
        assert IsMember(s.tables, room, c.request.user) <==> c.request.user in Users(s.tables, room);
        assert IsMember(s'.tables, room, c.request.user) <==> c.request.user in Users(s'.tables, room);
      }
    }
  }

  lemma {:induction false} OneByOneIsNeverStale(s: State, actions: seq<Action>, i: nat)
    requires Base(s) && NothingStale(s) && WorksAlways(actions) && AlwaysOneByOne(s, actions) && i <= |actions|
    ensures NothingStale(Exec(s, actions[..i]))
    decreases i
  {
    if i > 0 {
      var before := actions[..i - 1];
      OneByOneIsNeverStale(s, actions, i - 1);
      ExecKeepsBase(s, before);
      assert OneByOne(Exec(s, before));
      OneByOneKeepsTruth(Exec(s, before), actions[i - 1]);
      ExecAppend(s, before, [actions[i - 1]]);
      assert actions[..i] == before + [actions[i - 1]];
      assert [actions[i - 1]][1..] == [];
    }
  }

  /** No call is under way on the room. */
  ghost predicate Idle(s: State, room: RoomId) {
    forall id :: id in s.calls ==> !Active(s.calls[id], room)
  }

  lemma IdleRoomIsExact(s: State, room: RoomId)
    requires LogRight(s) && Idle(s, room)
    ensures room in Known(s) <==> room in s.tables.rooms
    ensures room in s.tables.rooms ==> Known(s)[room] == Users(s.tables, room)
  {
    forall id | id in s.calls ensures !Creates(s.calls[id], room) && !Deletes(s.calls[id], room) {
      assert !Active(s.calls[id], room);
    }
    assert Right(s, room, 0);
    if room in s.tables.rooms {
      forall u ensures u in Known(s)[room] <==> u in Users(s.tables, room) {
        assert Right(s, room, u);
        forall id ensures !Pending(s.calls, id, room, u) {
          assert id in s.calls ==> !Active(s.calls[id], room);
        }
        assert u in Users(s.tables, room) <==> IsMember(s.tables, room, u);
      }
    }
  }

  /**
   For every run whose steps all work and in which calls on one room come one after the other: the log
   folds to exactly the table's members in every room with no call under way.
   */
  lemma LogRefinesTables(actions: seq<Action>, room: RoomId)
    requires WorksAlways(actions) && AlwaysOneByOne(INITIAL, actions)
    requires Idle(Exec(INITIAL, actions), room)
    ensures var s := Exec(INITIAL, actions);
            && (room in Fold(map[], s.log) <==> room in s.tables.rooms)
            && (room in s.tables.rooms ==> Fold(map[], s.log)[room] == Users(s.tables, room))
  {
    InitiallyRight();
    forall i | 0 <= i <= |actions| ensures NothingStale(Exec(INITIAL, actions[..i])) {
      OneByOneIsNeverStale(INITIAL, actions, i);
    }
    TrueEventsKeepTheLogRight(actions);
    IdleRoomIsExact(Exec(INITIAL, actions), room);
  }

  // ---------- why one call at a time matters ----------

  /** Call a is about to remove and call b about to add the same user, who is a member now. */
  ghost predicate Racing(s: State, a: nat, b: nat, room: RoomId, user: UserId) {
    && a in s.calls && s.calls[a].stage == TargetChecked && s.calls[a].request.Remove?
    && b in s.calls && s.calls[b].stage == RequesterChecked && s.calls[b].request.Add?
    && s.calls[a].request.room == room == s.calls[b].request.room && room in s.tables.rooms
    && s.calls[a].request.user == user == s.calls[b].request.user && IsMember(s.tables, room, user)
  }

  ghost predicate AboutToWrite(s: State, id: nat) {
    && id in s.calls
    && var c := s.calls[id];
       || (c.request.Remove? && c.stage == TargetChecked && IsMember(s.tables, c.request.room, c.request.user))
       || (c.request.Add? && c.stage == RequesterChecked && c.request.room in s.tables.rooms
           && !IsMember(s.tables, c.request.room, c.request.user))
  }

  function WriteAndRead(id: nat, newId: RoomId): seq<Action> {
    [Advance(id, newId, Works), Advance(id, newId + 1, Works)]
  }

  /** The schedule: a writes and reads, b writes and reads, b publishes, a publishes. */
  function Race(a: nat, b: nat, newId: RoomId): seq<Action> {
    WriteAndRead(a, newId)
    + (WriteAndRead(b, newId + 2) + ([Advance(b, newId + 4, Works)] + [Advance(a, newId + 5, Works)]))
  }

  lemma RaceRuns(s: State, a: nat, b: nat, newId: RoomId)
    ensures var s4 := Exec(Exec(s, WriteAndRead(a, newId)), WriteAndRead(b, newId + 2));
            Exec(s, Race(a, b, newId)) == Exec(Exec(s4, [Advance(b, newId + 4, Works)]), [Advance(a, newId + 5, Works)])
  {
    var first, second := WriteAndRead(a, newId), WriteAndRead(b, newId + 2);
    var third, fourth := [Advance(b, newId + 4, Works)], [Advance(a, newId + 5, Works)];
    ExecAppend(s, first, second + (third + fourth));
    ExecAppend(Exec(s, first), second, third + fourth);
    ExecAppend(Exec(Exec(s, first), second), third, fourth);
  }

  /** Two undisturbed steps: the membership write and the read of the recipients. */
  lemma WritesAndReads(s: State, id: nat, newId: RoomId) returns (s': State)
    requires AboutToWrite(s, id) && newId !in s.used && newId + 1 !in s.used
    ensures s' == Exec(s, WriteAndRead(id, newId))
    ensures var r := s.calls[id].request;
            && s'.tables == s.tables.(members := if r.Add? then s.tables.members[(r.room, r.user) := Member]
                                                 else s.tables.members - {(r.room, r.user)})
            && s'.log == s.log
            && s'.used == s.used + {newId, newId + 1}
            && var event := MembershipChanged(r.room, r.user, r.Add?, Users(s'.tables, r.room));
               s'.calls == s.calls[id := Call(r, Announcing(event))]
  {
    var s1 := Do(s, Advance(id, newId, Works));
    assert s1.calls[id] == Call(s.calls[id].request, Changed(s.calls[id].request.room));
    s' := Do(s1, Advance(id, newId + 1, Works));
    assert WriteAndRead(id, newId)[1..][1..] == [];
    assert Exec(s1, WriteAndRead(id, newId)[1..]) == s';
  }

  lemma Publishes(s: State, id: nat, newId: RoomId) returns (s': State)
    requires id in s.calls && s.calls[id].stage.Announcing? && newId !in s.used
    ensures s' == Exec(s, [Advance(id, newId, Works)])
    ensures s'.tables == s.tables
    ensures s'.log == s.log + [s.calls[id].stage.event]
    ensures forall other :: other in s.calls && other != id ==> other in s'.calls && s'.calls[other] == s.calls[other]
    ensures s'.used == s.used + {newId}
  {
    s' := Do(s, Advance(id, newId, Works));
    assert [Advance(id, newId, Works)][1..] == [];
  }

  lemma BothWritten(s: State, a: nat, b: nat, room: RoomId, user: UserId, newId: RoomId)
    returns (s4: State, added: Event, removed: Event)
    requires Racing(s, a, b, room, user)
    requires forall used :: used in s.used ==> used < newId
    ensures s4 == Exec(Exec(s, WriteAndRead(a, newId)), WriteAndRead(b, newId + 2))
    ensures a in s4.calls && s4.calls[a].stage == Announcing(removed)
    ensures b in s4.calls && s4.calls[b].stage == Announcing(added)
    ensures added.MembershipChanged? && removed == MembershipChanged(room, user, false, removed.recipients)
    ensures added.room == room
    ensures user in Users(s4.tables, room) && s4.log == s.log
    ensures forall used :: used in s4.used ==> used < newId + 4
  {
    var s2 := WritesAndReads(s, a, newId);
    s4 := WritesAndReads(s2, b, newId + 2);
    added, removed := s4.calls[b].stage.event, s4.calls[a].stage.event;
    assert (room, user) in s4.tables.members;
  }

  lemma LateRemoval(t: Tables, log: seq<Event>, added: Event, removed: Event, longer: seq<Event>)
    requires added.MembershipChanged? && removed.MembershipChanged? && !removed.added && added.room == removed.room
    requires Fold(map[], log) == MembershipOf(t) && removed.room in t.rooms
    requires longer == log + [added] + [removed]
    ensures removed.room in Fold(map[], longer) && removed.user !in Fold(map[], longer)[removed.room]
  {
    assert longer[..|longer| - 1] == log + [added] && (log + [added])[..|log|] == log;
  }

  /**
   A removal and an addition of the same user, both past their checks: the removal is written, the
   addition is written and published, and only then is the removal published. No call failed and the
   log was right before, yet it now denies a user the table holds.
   */
  lemma RaceMisleadsTheLog(s: State, a: nat, b: nat, room: RoomId, user: UserId, newId: RoomId)
    returns (s': State, schedule: seq<Action>)
    requires Fold(map[], s.log) == MembershipOf(s.tables)
    requires Racing(s, a, b, room, user)
    requires forall used :: used in s.used ==> used < newId
    ensures s' == Exec(s, schedule)
    ensures user in Users(s'.tables, room)
    ensures room in Fold(map[], s'.log) && user !in Fold(map[], s'.log)[room]
  {
    var s4, added, removed := BothWritten(s, a, b, room, user, newId);
    var s5 := Publishes(s4, b, newId + 4);
    s' := Publishes(s5, a, newId + 5);
    schedule := Race(a, b, newId);
    RaceRuns(s, a, b, newId);
    LateRemoval(s.tables, s.log, added, removed, s'.log);
  }

  /** A further step that only reads takes its call to the next stage. */
  lemma Reads(start: State, s: State, done: seq<Action>, id: nat, newId: RoomId, next: Stage)
    returns (s': State, actions: seq<Action>)
    requires s == Exec(start, done)
    requires id in s.calls && !s.calls[id].stage.Finished? && Fits(s.calls[id].request, s.calls[id].stage)
    requires newId !in s.used
    requires Step(s.tables, s.calls[id], newId, Works) == Effect(s.tables, next, [])
    ensures s' == Exec(start, actions)
    ensures s' == State(s.tables, s.used + {newId}, s.calls[id := Call(s.calls[id].request, next)], s.log)
  {
    var step := [Advance(id, newId, Works)];
    s' := Do(s, step[0]);
    actions := done + step;
    ExecAppend(start, done, step);
    assert step[1..] == [];
    assert s.log + [] == s.log;
  }

  /** The owner's removal of a plain member and the owner's addition of anyone pass their checks. */
  lemma OwnerPassesChecks(t: Tables, room: RoomId, user: UserId)
    requires TablesOk(t) && room in t.rooms && t.rooms[room].kind == Group
    ensures IsOwner(t, room, t.rooms[room].createdBy)
    ensures IsMember(t, room, user) && user != t.rooms[room].createdBy ==> !IsOwner(t, room, user)
  {
    assert t.rooms[room].createdBy in Owners(t, room);
    if IsMember(t, room, user) { RoleTellsCreator(t, room, user); }
  }

  lemma RemovalIsChecked(s: State, id: nat, room: RoomId, user: UserId, newId: RoomId)
    returns (s': State, actions: seq<Action>)
    requires id !in s.calls && room in s.tables.rooms && s.tables.rooms[room].kind == Group
    requires var owner := s.tables.rooms[room].createdBy;
             IsOwner(s.tables, room, owner) && IsMember(s.tables, room, user) && !IsOwner(s.tables, room, user)
    requires forall used :: used in s.used ==> used < newId
    ensures s' == Exec(s, actions)
    ensures var r := Remove(room, user, s.tables.rooms[room].createdBy);
            s' == State(s.tables, s.used + {newId, newId + 1, newId + 2}, s.calls[id := Call(r, TargetChecked)], s.log)
  {
    var r := Remove(room, user, s.tables.rooms[room].createdBy);
    var s0 := Do(s, Start(id, r));
    actions := [Start(id, r)];
    assert actions[1..] == [];
    var s1, actions1 := Reads(s, s0, actions, id, newId, RoomChecked);
    var s2, actions2 := Reads(s, s1, actions1, id, newId + 1, RequesterChecked);
    s', actions := Reads(s, s2, actions2, id, newId + 2, TargetChecked);
    assert s'.calls == s.calls[id := Call(r, TargetChecked)];
  }

  lemma AdditionIsChecked(s: State, id: nat, room: RoomId, user: UserId, newId: RoomId)
    returns (s': State, actions: seq<Action>)
    requires id !in s.calls && room in s.tables.rooms && s.tables.rooms[room].kind == Group
    requires IsOwner(s.tables, room, s.tables.rooms[room].createdBy)
    requires forall used :: used in s.used ==> used < newId
    ensures s' == Exec(s, actions)
    ensures var r := Add(room, user, s.tables.rooms[room].createdBy);
            s' == State(s.tables, s.used + {newId, newId + 1}, s.calls[id := Call(r, RequesterChecked)], s.log)
  {
    var r := Add(room, user, s.tables.rooms[room].createdBy);
    var s0 := Do(s, Start(id, r));
    actions := [Start(id, r)];
    assert actions[1..] == [];
    var s1, actions1 := Reads(s, s0, actions, id, newId, RoomChecked);
    s', actions := Reads(s, s1, actions1, id, newId + 1, RequesterChecked);
    assert s'.calls == s.calls[id := Call(r, RequesterChecked)];
  }

  lemma RaceCanStart(s: State, room: RoomId, user: UserId, a: nat, newId: RoomId)
    returns (s2: State, actions: seq<Action>)
    requires TablesOk(s.tables) && room in s.tables.rooms && s.tables.rooms[room].kind == Group
    requires IsMember(s.tables, room, user) && user != s.tables.rooms[room].createdBy
    requires a !in s.calls && a + 1 !in s.calls && forall used :: used in s.used ==> used < newId
    ensures s2 == Exec(s, actions)
    ensures Racing(s2, a, a + 1, room, user) && s2.tables == s.tables && s2.log == s.log
    ensures forall used :: used in s2.used ==> used < newId + 5
  {
    OwnerPassesChecks(s.tables, room, user);
    var s1, first := RemovalIsChecked(s, a, room, user, newId);
    var second;
    s2, second := AdditionIsChecked(s1, a + 1, room, user, newId + 3);
    actions := first + second;
    ExecAppend(s, first, second);
  }

  lemma MisleadFrom(s: State, room: RoomId, user: UserId) returns (after: seq<Action>)
    requires TablesOk(s.tables) && Fold(map[], s.log) == MembershipOf(s.tables)
    requires room in s.tables.rooms && s.tables.rooms[room].kind == Group
    requires IsMember(s.tables, room, user) && user != s.tables.rooms[room].createdBy
    ensures var s' := Exec(s, after);
            user in Users(s'.tables, room) && room in Fold(map[], s'.log) && user !in Fold(map[], s'.log)[room]
  {
    var a := Above(s.calls.Keys);
    var newId := Above(s.used);
    var s2, checks := RaceCanStart(s, room, user, a, newId);
    var s', schedule := RaceMisleadsTheLog(s2, a, a + 1, room, user, newId + 5);
    after := checks + schedule;
    ExecAppend(s, checks, schedule);
  }

  /**
   Whenever the log is right and some group room has a member besides its owner, two overlapping calls
   of the owner can make the log wrong, without any failure.
   */
  lemma LogCanBeMisled(before: seq<Action>, room: RoomId, user: UserId) returns (after: seq<Action>)
    requires var s := Exec(INITIAL, before);
             && Fold(map[], s.log) == MembershipOf(s.tables)
             && room in s.tables.rooms && s.tables.rooms[room].kind == Group
             && IsMember(s.tables, room, user) && user != s.tables.rooms[room].createdBy
    ensures var s' := Exec(Exec(INITIAL, before), after);
            && user in Users(s'.tables, room)
            && room in Fold(map[], s'.log) && user !in Fold(map[], s'.log)[room]
  {
    ExecKeepsInv(INITIAL, before);
    after := MisleadFrom(Exec(INITIAL, before), room, user);
  }
}
