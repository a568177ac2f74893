/**
 Sending and deleting messages as interleaved calls. Each repository call and each membership query of
 the room service is one step; what the room service answers is arbitrary. A send checks its reply
 target in one step and inserts in a later one, a deletion reads the message first and updates it last.
 */
module MessageProtocol {
  import opened Wrappers
  import opened MessageContent
  import opened MessageStore
  import opened MessagePaging

  datatype Request =
    | Send(room: RoomId, sender: UserId, kind: ProtoType, content: SendContent, replyTo: Option<Id>)
    | Delete(message: Id, requester: UserId)

  /**
   MessageMissing is the service's own "message not found"; StoreMissing is the repository's, which a
   deletion hands on as it is.
   */
  datatype Failure = BadRequest | NotMember | NotOwner | InvalidReplyTarget | MessageMissing | StoreMissing | Internal

  datatype Stage =
    | Begin
    | MemberChecked
    | ReplyChecked
    | Found(room: RoomId, sender: UserId)
    | MayDelete
    | Finished(result: Result<(), Failure>)

  datatype Fate = Works | Fails | WorksButReportsFailure

  datatype Call = Call(request: Request, stage: Stage)

  /** `origins` is history: the request each row was inserted for. */
  datatype State = State(rows: Rows, calls: map<nat, Call>, origins: seq<Request>)

  const INITIAL := State([], map[], [])

  datatype Action =
    | Start(id: nat, request: Request)
    | Advance(id: nat, newId: Id, at: nat, isMember: bool, fate: Fate)

  datatype Effect = Effect(rows: Rows, inserted: seq<Request>, stage: Stage)

  function Stop(rows: Rows, f: Failure): Effect {
    Effect(rows, [], Finished(Err(f)))
  }

  /** What SendMessage makes of the message it is to reply to. */
  function CheckReply(rows: Rows, room: RoomId, target: Id): Result<(), Failure> {
    match Find(rows, target)
    case None => Err(InvalidReplyTarget)
    case Some(original) =>
      if ReadRow(rows, original).Err? then Err(Internal)
      else if original.deleted then Err(InvalidReplyTarget)
      else if original.room != room then Err(InvalidReplyTarget)
      else Ok(())
  }

  function StepSend(rows: Rows, r: Request, stage: Stage, newId: Id, at: nat, isMember: bool, fate: Fate): Effect
    requires r.Send?
  {
    match stage
    case Begin =>
      if Translate(r.kind, r.content).Err? then Stop(rows, BadRequest)
      else if fate != Works then Stop(rows, Internal)
      else if !isMember then Stop(rows, NotMember)
      else Effect(rows, [], if r.replyTo.None? then ReplyChecked else MemberChecked)
    case MemberChecked =>
      if r.replyTo.None? || fate != Works then Stop(rows, Internal)
      else
        var check := CheckReply(rows, r.room, r.replyTo.value);
        if check.Err? then Stop(rows, check.error) else Effect(rows, [], ReplyChecked)
    case ReplyChecked =>
      var translated := Translate(r.kind, r.content);
      if translated.Err? || fate == Fails then Stop(rows, Internal)
      else
        var (msgType, content) := translated.value;
        var row := Row(newId, r.room, r.sender, msgType, Marshal(ToRepoContent(content)), r.replyTo, false, at);
        Effect(rows + [row], [r], Finished(if fate == Works then Ok(()) else Err(Internal)))
    case Found(_, _) => Stop(rows, Internal)
    case MayDelete => Stop(rows, Internal)
    case Finished(_) => Effect(rows, [], stage)
  }

  function StepDelete(rows: Rows, r: Request, stage: Stage, isMember: bool, fate: Fate): Effect
    requires r.Delete?
  {
    match stage
    case Begin =>
      if fate != Works then Stop(rows, Internal)
      else
        match Find(rows, r.message) {
          case None => Stop(rows, MessageMissing)
          case Some(m) =>
            if ReadRow(rows, m).Err? then Stop(rows, Internal) else Effect(rows, [], Found(m.room, m.sender))
        }
    case Found(_, sender) =>
      if fate != Works then Stop(rows, Internal)
      else if !isMember then Stop(rows, NotMember)
      else if sender != r.requester then Stop(rows, NotOwner)
      else Effect(rows, [], MayDelete)
    case MayDelete =>
      var outcome := SoftDelete(rows, r.message);
      if fate == Fails then Stop(rows, Internal)
      else if outcome.Err? then Stop(rows, if fate == Works then StoreMissing else Internal)
      else Effect(outcome.value, [], Finished(if fate == Works then Ok(()) else Err(Internal)))
    case MemberChecked => Stop(rows, Internal)
    case ReplyChecked => Stop(rows, Internal)
    case Finished(_) => Effect(rows, [], stage)
  }

  predicate Enabled(s: State, a: Action) {
    match a
    case Start(id, _) => id !in s.calls
    case Advance(id, newId, _, _, _) => id in s.calls && !s.calls[id].stage.Finished? && Find(s.rows, newId).None?
  }

  function Step(s: State, a: Action): Effect
    requires a.Advance? && a.id in s.calls
  {
    var c := s.calls[a.id];
    if c.request.Send? then StepSend(s.rows, c.request, c.stage, a.newId, a.at, a.isMember, a.fate)
    else StepDelete(s.rows, c.request, c.stage, a.isMember, a.fate)
  }

  function Do(s: State, a: Action): State {
    if !Enabled(s, a) then s
    else
      match a
      case Start(id, request) => s.(calls := s.calls[id := Call(request, Begin)])
      case Advance(id, _, _, _, _) =>
        var e := Step(s, a);
        State(e.rows, s.calls[id := s.calls[id].(stage := e.stage)], s.origins + e.inserted)
  }

  function Exec(s: State, actions: seq<Action>): State
    decreases |actions|
  {
    if actions == [] then s else Exec(Do(s, actions[0]), actions[1..])
  }

  // ---------- a call that runs alone ----------

  function Rank(stage: Stage): nat {
    match stage
    case Begin => 3
    case MemberChecked => 2
    case ReplyChecked => 1
    case Found(_, _) => 2
    case MayDelete => 1
    case Finished(_) => 0
  }

  /** The steps of one call in a row, none of them failing: the table and the result. */
  function RunAlone(rows: Rows, r: Request, stage: Stage, newId: Id, at: nat, isMember: bool)
    : (Rows, Result<(), Failure>)
    decreases Rank(stage)
  {
    if stage.Finished? then (rows, stage.result)
    else
      var e :=
        if r.Send? then StepSend(rows, r, stage, newId, at, isMember, Works)
        else StepDelete(rows, r, stage, isMember, Works);
      RunAlone(e.rows, r, e.stage, newId, at, isMember)
  }

  /** When a send is accepted. */
  predicate Sendable(rows: Rows, r: Request, isMember: bool)
    requires r.Send?
  {
    Acceptable(r.kind, r.content) && isMember && (r.replyTo.Some? ==> CheckReply(rows, r.room, r.replyTo.value).Ok?)
  }

  /** When a deletion is accepted. */
  predicate Deletable(rows: Rows, message: Id, requester: UserId, isMember: bool) {
    && isMember && Find(rows, message).Some?
    && var m := Find(rows, message).value;
       ReadRow(rows, m).Ok? && m.sender == requester && !m.deleted
  }

  /** Why a deletion is turned away, when it is. */
  function DeletionRefusal(rows: Rows, message: Id, requester: UserId, isMember: bool): Failure {
    match Find(rows, message)
    case None => MessageMissing
    case Some(m) =>
      if ReadRow(rows, m).Err? then Internal
      else if !isMember then NotMember
      else if m.sender != requester then NotOwner
      else StoreMissing
  }

  /** The codes of the DeleteMessage handler. */
  datatype Status = StatusOk | StatusNotFound | StatusPermissionDenied | StatusInternal

  function DeleteStatus(result: Result<(), Failure>): Status {
    match result
    case Ok(_) => StatusOk
    case Err(f) =>
      if f == MessageMissing then StatusNotFound
      else if f == NotOwner then StatusPermissionDenied
      else StatusInternal
  }

  /** The steps of a send add one row for its request exactly if it is sendable, and otherwise nothing. */
  lemma SendAlone(rows: Rows, r: Request, newId: Id, at: nat, isMember: bool)
    requires r.Send?
    ensures var (after, result) := RunAlone(rows, r, Begin, newId, at, isMember);
            && (result.Ok? <==> Sendable(rows, r, isMember))
            && (result.Err? ==> after == rows)
            && (result.Ok? ==> |after| == |rows| + 1 && after[..|rows|] == rows
                               && StoredFor(after[|rows|], r) && after[|rows|].id == newId && after[|rows|].at == at
                               && !after[|rows|].deleted)
  {
    AcceptedExactlyIfAcceptable(r.kind, r.content);
    if Acceptable(r.kind, r.content) && isMember {
      if r.replyTo.Some? {
        assert RunAlone(rows, r, Begin, newId, at, isMember) == RunAlone(rows, r, MemberChecked, newId, at, isMember);
      } else {
        assert RunAlone(rows, r, Begin, newId, at, isMember) == RunAlone(rows, r, ReplyChecked, newId, at, isMember);
      }
    }
  }

  /** The steps of a deletion mark the message exactly if it is deletable, and otherwise do nothing. */
  lemma DeleteAlone(rows: Rows, r: Request, newId: Id, at: nat, isMember: bool)
    requires r.Delete?
    ensures var (after, result) := RunAlone(rows, r, Begin, newId, at, isMember);
            && (result.Ok? <==> Deletable(rows, r.message, r.requester, isMember))
            && (result.Err? ==> result.error == DeletionRefusal(rows, r.message, r.requester, isMember))
            && after == if result.Ok? then Deleted(rows, r.message) else rows
  {
    var m := Find(rows, r.message);
    if m.Some? && ReadRow(rows, m.value).Ok? {
      var found := Found(m.value.room, m.value.sender);
      assert RunAlone(rows, r, Begin, newId, at, isMember) == RunAlone(rows, r, found, newId, at, isMember);
      if isMember && m.value.sender == r.requester {
        assert RunAlone(rows, r, found, newId, at, isMember) == RunAlone(rows, r, MayDelete, newId, at, isMember);
      }
    }
  }

  /**
   What a caller is told about a deletion of a readable message: in particular "not found" exactly if the
   message never existed, and an internal error if it is already deleted or the caller is no member.
   */
  lemma DeletionIsAnswered(rows: Rows, r: Request, newId: Id, at: nat, isMember: bool)
    requires r.Delete? && Decodable(rows)
    ensures var status := DeleteStatus(RunAlone(rows, r, Begin, newId, at, isMember).1); var m := Find(rows, r.message);
            && (status == StatusNotFound <==> m.None?)
            && (status == StatusPermissionDenied <==> m.Some? && isMember && m.value.sender != r.requester)
            && (status == StatusInternal <==>
                  m.Some? && (!isMember || (m.value.sender == r.requester && m.value.deleted)))
  {
    DeleteAlone(rows, r, newId, at, isMember);
    var m := Find(rows, r.message);
    if m.Some? {
      var i :| 0 <= i < |rows| && rows[i] == m.value;
      assert Unmarshal(rows[i].kind, rows[i].content).Ok?;
    }
  }

  // ---------- invariant ----------

  /** The row holds what the request asked to send. */
  ghost predicate StoredFor(row: Row, r: Request) {
    && r.Send? && Translate(r.kind, r.content).Ok?
    && var (msgType, content) := Translate(r.kind, r.content).value;
       row.room == r.room && row.sender == r.sender && row.kind == msgType
       && row.content == Marshal(ToRepoContent(content)) && row.replyTo == r.replyTo
  }

  /** The reply target was inserted earlier, into the same room. */
  ghost predicate RepliesBack(rows: Rows, i: nat)
    requires i < |rows|
  {
    rows[i].replyTo.Some? ==>
      exists j :: 0 <= j < i && rows[j].id == rows[i].replyTo.value && rows[j].room == rows[i].room
  }

  ghost predicate RowsOk(s: State) {
    && UniqueIds(s.rows)
    && |s.origins| == |s.rows|
    && (forall i :: 0 <= i < |s.rows| ==> StoredFor(s.rows[i], s.origins[i]))
    && (forall i :: 0 <= i < |s.rows| ==> RepliesBack(s.rows, i))
  }

  ghost predicate Holds(rows: Rows, id: Id, room: RoomId) {
    exists i :: 0 <= i < |rows| && rows[i].id == id && rows[i].room == room
  }

  ghost predicate Wrote(rows: Rows, id: Id, sender: UserId) {
    exists i :: 0 <= i < |rows| && rows[i].id == id && rows[i].sender == sender
  }

  /** What a call has checked and relies on. */
  ghost predicate Relies(rows: Rows, c: Call) {
    && (c.request.Send? && c.stage.ReplyChecked? && c.request.replyTo.Some? ==>
          Holds(rows, c.request.replyTo.value, c.request.room))
    && (c.request.Delete? && c.stage.Found? ==> Wrote(rows, c.request.message, c.stage.sender))
    && (c.request.Delete? && c.stage.MayDelete? ==> Wrote(rows, c.request.message, c.request.requester))
  }

  /** A deleted message was deleted on its sender's request. */
  ghost predicate DeletedBySender(s: State) {
    forall i :: 0 <= i < |s.rows| && s.rows[i].deleted ==>
      exists id :: id in s.calls && s.calls[id].request == Delete(s.rows[i].id, s.rows[i].sender)
  }

  ghost predicate Inv(s: State) {
    RowsOk(s) && (forall id :: id in s.calls ==> Relies(s.rows, s.calls[id])) && DeletedBySender(s)
  }

  lemma RelianceIsStable(before: Rows, after: Rows, c: Call)
    requires Relies(before, c) && Evolves(before, after)
    ensures Relies(after, c)
  {
    if c.request.Send? && c.stage.ReplyChecked? && c.request.replyTo.Some? {
      var i :| 0 <= i < |before| && before[i].id == c.request.replyTo.value && before[i].room == c.request.room;
      assert after[i].id == before[i].id && after[i].room == before[i].room;
    }
    if c.request.Delete? && (c.stage.Found? || c.stage.MayDelete?) {
      var sender := if c.stage.Found? then c.stage.sender else c.request.requester;
      var i :| 0 <= i < |before| && before[i].id == c.request.message && before[i].sender == sender;
      assert after[i].id == before[i].id && after[i].sender == before[i].sender;
    }
  }

  /** A send's insert: the new row is last, so its reply target is earlier. */
  lemma InsertKeepsRows(s: State, row: Row, r: Request)
    requires RowsOk(s) && Find(s.rows, row.id).None? && StoredFor(row, r)
    requires r.replyTo.Some? ==> Holds(s.rows, r.replyTo.value, r.room)
    ensures RowsOk(s.(rows := s.rows + [row], origins := s.origins + [r]))
  {
    var rows := s.rows + [row];
    forall i | 0 <= i < |rows| ensures RepliesBack(rows, i) {
      if i < |s.rows| {
        assert RepliesBack(s.rows, i);
        if rows[i].replyTo.Some? {
          var j :| 0 <= j < i && s.rows[j].id == s.rows[i].replyTo.value && s.rows[j].room == s.rows[i].room;
          assert rows[j] == s.rows[j];
        }
      } else if r.replyTo.Some? {
        var j :| 0 <= j < |s.rows| && s.rows[j].id == r.replyTo.value && s.rows[j].room == r.room;
        assert rows[j] == s.rows[j];
      }
    }
  }

  lemma DeleteKeepsRows(s: State, id: Id)
    requires RowsOk(s) && SoftDelete(s.rows, id).Ok?
    ensures RowsOk(s.(rows := SoftDelete(s.rows, id).value))
  {
    var rows := SoftDelete(s.rows, id).value;
    forall i | 0 <= i < |rows| ensures RepliesBack(rows, i) && StoredFor(rows[i], s.origins[i]) {
      assert RepliesBack(s.rows, i) && StoredFor(s.rows[i], s.origins[i]);
      if rows[i].replyTo.Some? {
        var j :| 0 <= j < i && s.rows[j].id == s.rows[i].replyTo.value && s.rows[j].room == s.rows[i].room;
        assert rows[j].id == s.rows[j].id && rows[j].room == s.rows[j].room;
      }
    }
  }

  lemma StepKeepsRows(s: State, a: Action)
    requires Inv(s) && a.Advance? && Enabled(s, a)
    ensures RowsOk(s.(rows := Step(s, a).rows, origins := s.origins + Step(s, a).inserted))
    ensures Evolves(s.rows, Step(s, a).rows)
  {
    var c := s.calls[a.id];
    var e := Step(s, a);
    StepWrites(s, a);
    if e.inserted != [] {
      var row := e.rows[|s.rows|];
      InsertKeepsRows(s, row, c.request);
      InsertEvolves(s.rows, row);
    } else {
      assert s.origins + e.inserted == s.origins;
      if e.rows != s.rows {
        DeleteKeepsRows(s, c.request.message);
        SoftDeleteEvolves(s.rows, c.request.message);
      }
    }
  }

  /** The two ways a step changes the table. */
  lemma StepWrites(s: State, a: Action)
    requires Inv(s) && a.Advance? && Enabled(s, a)
    ensures var c := s.calls[a.id]; var e := Step(s, a);
            if e.inserted != [] then
              && c.request.Send? && (c.request.replyTo.Some? ==> Holds(s.rows, c.request.replyTo.value, c.request.room))
              && e.inserted == [c.request] && |e.rows| == |s.rows| + 1 && e.rows == s.rows + [e.rows[|s.rows|]]
              && e.rows[|s.rows|].id == a.newId && !e.rows[|s.rows|].deleted && StoredFor(e.rows[|s.rows|], c.request)
            else
              || e.rows == s.rows
              || (c.request.Delete? && Wrote(s.rows, c.request.message, c.request.requester)
                  && SoftDelete(s.rows, c.request.message) == Ok(e.rows))
  {
    assert Relies(s.rows, s.calls[a.id]);
  }

  lemma FoundIsHeld(rows: Rows, id: Id)
    requires Find(rows, id).Some?
    ensures Holds(rows, id, Find(rows, id).value.room) && Wrote(rows, id, Find(rows, id).value.sender)
  {
    var r := Find(rows, id).value;
    var i :| 0 <= i < |rows| && rows[i] == r;
  }

  lemma SendEstablishes(rows: Rows, r: Request, stage: Stage, newId: Id, at: nat, isMember: bool, fate: Fate)
    requires r.Send? && Relies(rows, Call(r, stage)) && !stage.Finished?
    ensures var e := StepSend(rows, r, stage, newId, at, isMember, fate); Relies(e.rows, Call(r, e.stage))
  {
    if r.replyTo.Some? && Find(rows, r.replyTo.value).Some? {
      FoundIsHeld(rows, r.replyTo.value);
    }
  }

  lemma DeleteEstablishes(rows: Rows, r: Request, stage: Stage, isMember: bool, fate: Fate)
    requires r.Delete? && Relies(rows, Call(r, stage)) && !stage.Finished?
    ensures var e := StepDelete(rows, r, stage, isMember, fate); Relies(e.rows, Call(r, e.stage))
  {
    if Find(rows, r.message).Some? {
      FoundIsHeld(rows, r.message);
    }
  }

  lemma StepEstablishes(s: State, a: Action)
    requires Inv(s) && a.Advance? && Enabled(s, a)
    ensures Relies(Step(s, a).rows, s.calls[a.id].(stage := Step(s, a).stage))
  {
    var c := s.calls[a.id];
    if c.request.Send? {
      SendEstablishes(s.rows, c.request, c.stage, a.newId, a.at, a.isMember, a.fate);
    } else {
      DeleteEstablishes(s.rows, c.request, c.stage, a.isMember, a.fate);
    }
  }

  lemma StepKeepsDeletions(s: State, a: Action)
    requires Inv(s) && a.Advance? && Enabled(s, a)
    ensures DeletedBySender(Do(s, a))
  {
    StepWrites(s, a);
    var s' := Do(s, a);
    var c, rows := s.calls[a.id], Step(s, a).rows;
    assert s'.rows == rows;
    assert forall id :: id in s.calls ==> id in s'.calls && s'.calls[id].request == s.calls[id].request;
    forall i | 0 <= i < |rows| && rows[i].deleted
      ensures exists id :: id in s'.calls && s'.calls[id].request == Delete(rows[i].id, rows[i].sender)
    {
      if i < |s.rows| && s.rows[i].deleted {
        assert rows[i] == s.rows[i];
        var id :| id in s.calls && s.calls[id].request == Delete(s.rows[i].id, s.rows[i].sender);
        assert s'.calls[id].request == s.calls[id].request;
      } else {
        DeletesItsOwn(s.rows, rows, c.request.message, c.request.requester, i);
        assert s'.calls[a.id].request == Delete(rows[i].id, rows[i].sender);
      }
    }
  }

  lemma DeletesItsOwn(before: Rows, after: Rows, id: Id, sender: UserId, i: nat)
    requires UniqueIds(before) && Wrote(before, id, sender) && SoftDelete(before, id) == Ok(after)
    requires i < |before| && !before[i].deleted && after[i].deleted
    ensures after[i].id == id && after[i].sender == sender
  {
    var k :| 0 <= k < |before| && before[k].id == id && before[k].sender == sender;
    assert before[i].id == id;
  }

  lemma DoKeepsInv(s: State, a: Action)
    requires Inv(s)
    ensures Inv(Do(s, a)) && Evolves(s.rows, Do(s, a).rows)
  {
    if Enabled(s, a) && a.Advance? {
      StepKeepsRows(s, a);
      StepEstablishes(s, a);
      StepKeepsDeletions(s, a);
      var s' := Do(s, a);
      forall id | id in s'.calls ensures Relies(s'.rows, s'.calls[id]) {
        if id != a.id {
          RelianceIsStable(s.rows, s'.rows, s.calls[id]);
        }
      }
    } else if Enabled(s, a) {
      StartKeepsInv(s, a);
    }
  }

  lemma StartKeepsInv(s: State, a: Action)
    requires Inv(s) && a.Start? && Enabled(s, a)
    ensures Inv(Do(s, a)) && Do(s, a).rows == s.rows
  {
    var s' := Do(s, a);
    forall i | 0 <= i < |s.rows| && s.rows[i].deleted
      ensures exists id :: id in s'.calls && s'.calls[id].request == Delete(s.rows[i].id, s.rows[i].sender)
    {
      var id :| id in s.calls && s.calls[id].request == Delete(s.rows[i].id, s.rows[i].sender);
      assert s'.calls[id] == s.calls[id];
    }
  }

  lemma {:induction false} ExecKeepsInv(s: State, actions: seq<Action>)
    requires Inv(s)
    ensures Inv(Exec(s, actions)) && Evolves(s.rows, Exec(s, actions).rows)
    decreases |actions|
  {
    if actions != [] {
      DoKeepsInv(s, actions[0]);
      ExecKeepsInv(Do(s, actions[0]), actions[1..]);
      EvolvesTransitive(s.rows, Do(s, actions[0]).rows, Exec(s, actions).rows);
    }
  }

  // ---------- replies ----------

  /** Every reply names an earlier message of the same room. */
  lemma RepliesNameEarlierMessages(actions: seq<Action>, i: nat)
    requires i < |Exec(INITIAL, actions).rows|
    ensures RepliesBack(Exec(INITIAL, actions).rows, i)
  {
    ExecKeepsInv(INITIAL, actions);
  }

  /** A walk along replies, by row number. */
  ghost predicate IsReplyPath(rows: Rows, path: seq<nat>) {
    path != [] ==>
      && path[0] < |rows|
      && (|path| > 1 ==> path[1] < |rows| && rows[path[0]].replyTo == Some(rows[path[1]].id))
      && IsReplyPath(rows, path[1..])
  }

  /** The path goes strictly back and stays in one room. */
  ghost predicate GoesBack(rows: Rows, path: seq<nat>) {
    && (forall k, l :: 0 <= k < l < |path| ==> path[l] < path[k])
    && (forall k :: 0 <= k < |path| ==> path[k] < |rows|)
    && (forall k :: 0 <= k < |path| ==> rows[path[k]].room == rows[path[0]].room)
  }

  lemma PrependStep(rows: Rows, first: nat, rest: seq<nat>)
    requires GoesBack(rows, rest) && rest != [] && rest[0] < first < |rows| && rows[rest[0]].room == rows[first].room
    ensures GoesBack(rows, [first] + rest)
  {
    var path := [first] + rest;
    forall k, l | 0 <= k < l < |path| ensures path[l] < path[k] {
      assert path[l] == rest[l - 1] <= rest[0];
    }
  }

  lemma {:induction false} PathGoesBack(rows: Rows, path: seq<nat>)
    requires UniqueIds(rows) && forall i :: 0 <= i < |rows| ==> RepliesBack(rows, i)
    requires path != [] && IsReplyPath(rows, path)
    ensures GoesBack(rows, path) && |path| <= path[0] + 1
    decreases |path|
  {
    if |path| > 1 {
      assert RepliesBack(rows, path[0]);
      var j :|
        && 0 <= j < path[0] && rows[j].id == rows[path[0]].replyTo.value && rows[j].room == rows[path[0]].room;
      assert j == path[1];
      PathGoesBack(rows, path[1..]);
      PrependStep(rows, path[0], path[1..]);
      assert path == [path[0]] + path[1..];
    }
  }

  /** Following replies always goes back and stays in the room, so it cannot go round and must end. */
  lemma ReplyPathsGoBack(actions: seq<Action>, path: seq<nat>)
    requires path != [] && IsReplyPath(Exec(INITIAL, actions).rows, path)
    ensures GoesBack(Exec(INITIAL, actions).rows, path)
    ensures |path| <= path[0] + 1
  {
    ExecKeepsInv(INITIAL, actions);
    PathGoesBack(Exec(INITIAL, actions).rows, path);
  }

  // ---------- reading what was sent ----------

  /** Any stored message reads back with the type and all content fields of the request it was sent with. */
  lemma ReadsShowTheRequest(actions: seq<Action>, i: nat)
    requires i < |Exec(INITIAL, actions).rows|
    ensures |Exec(INITIAL, actions).origins| == |Exec(INITIAL, actions).rows|
    ensures var s := Exec(INITIAL, actions); var m := ReadRow(s.rows, s.rows[i]); var r := s.origins[i];
            && m.Ok? && r.Send?
            && Render(m.value.kind, ToContent(m.value.content), m.value.deleted)
               == (r.kind, if m.value.deleted then PNone else Echo(r.content))
            && m.value.room == r.room && m.value.sender == r.sender
  {
    ExecKeepsInv(INITIAL, actions);
    var s := Exec(INITIAL, actions);
    assert StoredFor(s.rows[i], s.origins[i]);
    ContentSurvives(s.origins[i].kind, s.origins[i].content);
  }

  lemma InvMeansDecodable(s: State)
    requires Inv(s)
    ensures Decodable(s.rows)
  {
    forall i | 0 <= i < |s.rows| ensures Unmarshal(s.rows[i].kind, s.rows[i].content).Ok? {
      assert StoredFor(s.rows[i], s.origins[i]);
      ContentSurvives(s.origins[i].kind, s.origins[i].content);
    }
  }

  /** Only the sender's own request can have deleted a message. */
  lemma OnlySendersDelete(actions: seq<Action>, i: nat)
    requires var s := Exec(INITIAL, actions); i < |s.rows| && s.rows[i].deleted
    ensures var s := Exec(INITIAL, actions);
            exists id :: id in s.calls && s.calls[id].request == Delete(s.rows[i].id, s.rows[i].sender)
  {
    ExecKeepsInv(INITIAL, actions);
  }

  // ---------- what a deletion is answered while others run ----------

  /** The call's own repository calls and queries all work. */
  predicate OwnStepsWork(actions: seq<Action>, id: nat) {
    forall i :: 0 <= i < |actions| && actions[i].Advance? && actions[i].id == id ==> actions[i].fate == Works
  }

  /** What one of the call's own steps saw: the table, and the room service's answer. */
  datatype View = View(rows: Rows, isMember: bool)

  function Views(s: State, actions: seq<Action>, id: nat): seq<View>
    decreases |actions|
  {
    if actions == [] then []
    else
      var rest := Views(Do(s, actions[0]), actions[1..], id);
      if actions[0].Advance? && actions[0].id == id && Enabled(s, actions[0])
      then [View(s.rows, actions[0].isMember)] + rest
      else rest
  }

  /** The views take a deletion from this stage to its result, and not beyond. */
  predicate LeadTo(r: Request, stage: Stage, views: seq<View>, result: Result<(), Failure>)
    requires r.Delete?
    decreases |views|
  {
    if stage.Finished? then views == [] && stage.result == result
    else
      && views != []
      && var next := StepDelete(views[0].rows, r, stage, views[0].isMember, Works).stage;
         LeadTo(r, next, views[1..], result)
  }

  /** The tables seen are decodable and each evolves from the ones before. */
  ghost predicate Progressing(before: Rows, views: seq<View>) {
    && (forall i :: 0 <= i < |views| ==> Decodable(views[i].rows) && Evolves(before, views[i].rows))
    && (forall i, j :: 0 <= i < j < |views| ==> Evolves(views[i].rows, views[j].rows))
  }

  lemma ProgressesFrom(before: Rows, after: Rows, views: seq<View>)
    requires Evolves(before, after) && Progressing(after, views)
    ensures Progressing(before, views)
  {
    forall i | 0 <= i < |views| ensures Evolves(before, views[i].rows) {
      EvolvesTransitive(before, after, views[i].rows);
    }
  }

  lemma SeesFirst(rows: Rows, isMember: bool, views: seq<View>)
    requires UniqueIds(rows) && Decodable(rows) && Progressing(rows, views)
    ensures Progressing(rows, [View(rows, isMember)] + views)
  {
    var all := [View(rows, isMember)] + views;
    forall i, j | 0 <= i < j < |all| ensures Evolves(all[i].rows, all[j].rows) {
      assert all[j] == views[j - 1];
      if i > 0 {
        assert all[i] == views[i - 1];
      }
    }
  }

  lemma {:induction false} ViewsDecide(s: State, actions: seq<Action>, id: nat, r: Request)
    requires Inv(s) && r.Delete? && id in s.calls && s.calls[id].request == r && OwnStepsWork(actions, id)
    ensures id in Exec(s, actions).calls
    ensures var stage := Exec(s, actions).calls[id].stage;
            stage.Finished? ==> LeadTo(r, s.calls[id].stage, Views(s, actions, id), stage.result)
    ensures Progressing(s.rows, Views(s, actions, id))
    decreases |actions|
  {
    if actions != [] {
      var s' := Do(s, actions[0]);
      DoKeepsInv(s, actions[0]);
      assert OwnStepsWork(actions[1..], id);
      ViewsDecide(s', actions[1..], id, r);
      var rest := Views(s', actions[1..], id);
      ProgressesFrom(s.rows, s'.rows, rest);
      if actions[0].Advance? && actions[0].id == id && Enabled(s, actions[0]) {
        InvMeansDecodable(s);
        SeesFirst(s.rows, actions[0].isMember, rest);
        assert ([View(s.rows, actions[0].isMember)] + rest)[1..] == rest;
      }
    }
  }

  /** The message as the call's read saw it. */
  function ReadOf(r: Request, views: seq<View>): Option<Row>
    requires r.Delete? && views != []
  {
    Find(views[0].rows, r.message)
  }

  /** The call's update found the message marked as deleted. */
  predicate FoundDeleted(r: Request, views: seq<View>)
    requires r.Delete?
  {
    |views| == 3 && Find(views[2].rows, r.message).Some? && Find(views[2].rows, r.message).value.deleted
  }

  lemma RowStays(before: Rows, after: Rows, id: Id)
    requires UniqueIds(before) && Evolves(before, after) && Find(before, id).Some?
    ensures Find(after, id).Some? && Find(after, id).value.sender == Find(before, id).value.sender
  {
    var i :| 0 <= i < |before| && before[i] == Find(before, id).value;
    FindsItsRow(after, i);
  }

  /** The three steps of a deletion, one after the other. */
  lemma UpdateDecides(r: Request, views: seq<View>, result: Result<(), Failure>)
    requires r.Delete? && LeadTo(r, MayDelete, views, result)
    ensures |views| == 1
    ensures result == if SoftDelete(views[0].rows, r.message).Ok? then Ok(()) else Err(StoreMissing)
  {
    assert LeadTo(r, StepDelete(views[0].rows, r, MayDelete, views[0].isMember, Works).stage, views[1..], result);
  }

  lemma QueryDecides(r: Request, room: RoomId, sender: UserId, views: seq<View>, result: Result<(), Failure>)
    requires r.Delete? && LeadTo(r, Found(room, sender), views, result)
    ensures views != []
    ensures if !views[0].isMember then |views| == 1 && result == Err(NotMember)
            else if sender != r.requester then |views| == 1 && result == Err(NotOwner)
            else LeadTo(r, MayDelete, views[1..], result)
  {
    var next := StepDelete(views[0].rows, r, Found(room, sender), views[0].isMember, Works).stage;
    assert LeadTo(r, next, views[1..], result);
  }

  lemma ReadDecides(r: Request, views: seq<View>, result: Result<(), Failure>)
    requires r.Delete? && LeadTo(r, Begin, views, result) && views != [] && Decodable(views[0].rows)
    ensures match ReadOf(r, views)
            case None => |views| == 1 && result == Err(MessageMissing)
            case Some(m) => LeadTo(r, Found(m.room, m.sender), views[1..], result)
  {
    var m := ReadOf(r, views);
    if m.Some? {
      var i :| 0 <= i < |views[0].rows| && views[0].rows[i] == m.value;
      assert Unmarshal(views[0].rows[i].kind, views[0].rows[i].content).Ok?;
    }
    assert LeadTo(r, StepDelete(views[0].rows, r, Begin, views[0].isMember, Works).stage, views[1..], result);
  }

  /** What the answer of a deletion means, in terms of what its own steps saw. */
  ghost predicate Answers(r: Request, views: seq<View>, status: Status)
    requires r.Delete?
  {
    && views != []
    && var m := ReadOf(r, views);
       && (status == StatusNotFound <==> m.None?)
       && (status == StatusPermissionDenied <==>
             m.Some? && |views| == 2 && views[1].isMember && m.value.sender != r.requester)
       && (status == StatusInternal <==>
             && m.Some?
             && ((|views| == 2 && !views[1].isMember) || (m.value.sender == r.requester && FoundDeleted(r, views))))
  }

  /**
   What a caller is told about a deletion whose own steps work, in every interleaving: "not found" exactly
   if the message did not exist when it was read, and an internal error exactly if the caller was no member
   or the message was deleted by the time of the update, although it may have been live when it was read.
   */
  lemma DeletionIsAnsweredInAnyRun(s: State, actions: seq<Action>, id: nat, r: Request)
    requires Inv(s) && r.Delete? && id in s.calls && s.calls[id] == Call(r, Begin) && OwnStepsWork(actions, id)
    requires id in Exec(s, actions).calls && Exec(s, actions).calls[id].stage.Finished?
    ensures Answers(r, Views(s, actions, id), DeleteStatus(Exec(s, actions).calls[id].stage.result))
  {
    ViewsDecide(s, actions, id, r);
    ViewsAnswer(s.rows, r, Views(s, actions, id), Exec(s, actions).calls[id].stage.result);
  }

  /** The answer of a deletion that got as far as its update. */
  lemma UpdateAnswers(before: Rows, r: Request, views: seq<View>, result: Result<(), Failure>)
    requires r.Delete? && Progressing(before, views) && |views| >= 2 && ReadOf(r, views).Some?
    requires LeadTo(r, MayDelete, views[2..], result)
    ensures |views| == 3
    ensures DeleteStatus(result) == if FoundDeleted(r, views) then StatusInternal else StatusOk
  {
    UpdateDecides(r, views[2..], result);
    assert Evolves(views[0].rows, views[2].rows);
    RowStays(views[0].rows, views[2].rows, r.message);
  }

  lemma ViewsAnswer(before: Rows, r: Request, views: seq<View>, result: Result<(), Failure>)
    requires r.Delete? && LeadTo(r, Begin, views, result) && Progressing(before, views)
    ensures Answers(r, views, DeleteStatus(result))
  {
    ReadDecides(r, views, result);
    var m := ReadOf(r, views);
    if m.Some? {
      QueryDecides(r, m.value.room, m.value.sender, views[1..], result);
      if views[1].isMember && m.value.sender == r.requester {
        assert views[1..][1..] == views[2..];
        UpdateAnswers(before, r, views, result);
      }
    }
  }

  // ---------- two deletions of one message ----------

  lemma {:induction false} ExecAppend(s: State, a: seq<Action>, b: seq<Action>)
    ensures Exec(s, a + b) == Exec(Exec(s, a), b)
    decreases |a|
  {
    if a == [] {
      assert a + b == b;
    } else {
      assert (a + b)[1..] == a[1..] + b;
      ExecAppend(Do(s, a[0]), a[1..], b);
    }
  }

  /** One more action of a run. */
  lemma Then(start: State, s: State, done: seq<Action>, a: Action) returns (s': State, actions: seq<Action>)
    requires s == Exec(start, done)
    ensures s' == Do(s, a) && s' == Exec(start, actions)
  {
    s', actions := Do(s, a), done + [a];
    ExecAppend(start, done, [a]);
    assert [a][1..] == [];
  }

  /** A new deletion by the sender gets past its checks. */
  lemma PassesChecks(start: State, s: State, done: seq<Action>, id: nat, m: Row, newId: Id)
    returns (s': State, actions: seq<Action>)
    requires s == Exec(start, done) && id !in s.calls && Find(s.rows, newId).None?
    requires Find(s.rows, m.id) == Some(m) && ReadRow(s.rows, m).Ok?
    ensures s' == Exec(start, actions)
    ensures s' == s.(calls := s.calls[id := Call(Delete(m.id, m.sender), MayDelete)])
  {
    var r := Delete(m.id, m.sender);
    var s1, actions1 := Then(start, s, done, Start(id, r));
    var s2, actions2 := Then(start, s1, actions1, Advance(id, newId, 0, true, Works));
    assert s2.calls[id] == Call(r, Found(m.room, m.sender)) && s2.rows == s.rows && s2.origins == s.origins;
    s', actions := Then(start, s2, actions2, Advance(id, newId, 0, true, Works));
    assert s'.calls == s.calls[id := Call(r, MayDelete)] && s'.rows == s.rows && s'.origins == s.origins;
  }

  /** Of two deletions past their checks the second update finds nothing to mark. */
  lemma SecondUpdateFails(s: State, a: nat, b: nat, m: Row, newId: Id)
    requires a != b && a in s.calls && b in s.calls
    requires s.calls[a] == s.calls[b] == Call(Delete(m.id, m.sender), MayDelete)
    requires UniqueIds(s.rows) && Find(s.rows, m.id) == Some(m) && !m.deleted && Find(s.rows, newId).None?
    ensures var s1 := Do(s, Advance(a, newId, 0, true, Works)); var s2 := Do(s1, Advance(b, newId, 0, true, Works));
            && s2.rows == Deleted(s.rows, m.id)
            && s2.calls == s.calls[a := Call(Delete(m.id, m.sender), Finished(Ok(())))]
                                  [b := Call(Delete(m.id, m.sender), Finished(Err(StoreMissing)))]
  {
    var s1 := Do(s, Advance(a, newId, 0, true, Works));
    var i :| 0 <= i < |s.rows| && s.rows[i] == m;
    FindsItsRow(s1.rows, i);
  }

  /**
   From any reachable state with a live message: its sender deletes it twice at once, and the second caller
   gets an internal error although the message was live when that call read it and no step failed.
   */
  lemma DeletionsRace(before: seq<Action>, m: Row, a: nat, b: nat, newId: Id) returns (actions: seq<Action>)
    requires var s := Exec(INITIAL, before);
             && Find(s.rows, m.id) == Some(m) && !m.deleted && Find(s.rows, newId).None?
             && a != b && a !in s.calls && b !in s.calls
    ensures var s' := Exec(Exec(INITIAL, before), actions);
            && s'.rows == Deleted(Exec(INITIAL, before).rows, m.id)
            && a in s'.calls && b in s'.calls && s'.calls[a].stage.Finished? && s'.calls[b].stage.Finished?
            && DeleteStatus(s'.calls[a].stage.result) == StatusOk
            && DeleteStatus(s'.calls[b].stage.result) == StatusInternal
  {
    ExecKeepsInv(INITIAL, before);
    actions := DeletionsRaceFrom(Exec(INITIAL, before), m, a, b, newId);
  }

  lemma StoredIsReadable(s: State, m: Row)
    requires Inv(s) && Find(s.rows, m.id) == Some(m)
    ensures ReadRow(s.rows, m).Ok?
  {
    InvMeansDecodable(s);
    var i :| 0 <= i < |s.rows| && s.rows[i] == m;
    assert Unmarshal(s.rows[i].kind, s.rows[i].content).Ok?;
  }

  lemma DeletionsRaceFrom(s: State, m: Row, a: nat, b: nat, newId: Id) returns (actions: seq<Action>)
    requires Inv(s) && Find(s.rows, m.id) == Some(m) && !m.deleted && Find(s.rows, newId).None?
    requires a != b && a !in s.calls && b !in s.calls
    ensures var s' := Exec(s, actions);
            && s'.rows == Deleted(s.rows, m.id)
            && a in s'.calls && b in s'.calls && s'.calls[a].stage.Finished? && s'.calls[b].stage.Finished?
            && DeleteStatus(s'.calls[a].stage.result) == StatusOk
            && DeleteStatus(s'.calls[b].stage.result) == StatusInternal
  {
    StoredIsReadable(s, m);
    var s1, actions1 := PassesChecks(s, s, [], a, m, newId);
    var s2, actions2 := PassesChecks(s, s1, actions1, b, m, newId);
    SecondUpdateFails(s2, a, b, m, newId);
    var s3, actions3 := Then(s, s2, actions2, Advance(a, newId, 0, true, Works));
    var s4, actions4 := Then(s, s3, actions3, Advance(b, newId, 0, true, Works));
    actions := actions4;
  }

  // ---------- paging through a live room ----------

  /** The tables after each part of a run. */
  function TablesAfter(s: State, parts: seq<seq<Action>>): seq<Rows>
    decreases |parts|
  {
    if parts == [] then [] else [Exec(s, parts[0]).rows] + TablesAfter(Exec(s, parts[0]), parts[1..])
  }

  lemma {:induction false} TablesEvolve(s: State, parts: seq<seq<Action>>)
    requires Inv(s)
    ensures EvolvesAll(TablesAfter(s, parts)) && |TablesAfter(s, parts)| == |parts|
    ensures forall i :: 0 <= i < |parts| ==>
      Evolves(s.rows, TablesAfter(s, parts)[i]) && Decodable(TablesAfter(s, parts)[i])
    decreases |parts|
  {
    if parts != [] {
      var s1 := Exec(s, parts[0]);
      ExecKeepsInv(s, parts[0]);
      InvMeansDecodable(s1);
      TablesEvolve(s1, parts[1..]);
      var rest := TablesAfter(s1, parts[1..]);
      forall i | 0 <= i < |rest| ensures Evolves(s.rows, rest[i]) {
        EvolvesTransitive(s.rows, s1.rows, rest[i]);
      }
    }
  }

  /**
   A client walks a room while any sends and deletions run between its page reads: what it has received
   strictly descends, so nothing comes twice, and once the walk has ended nothing that stayed live is missing.
   */
  lemma WalkDuringARun(parts: seq<seq<Action>>, pages: seq<Page>, room: RoomId, limit: nat)
    requires limit >= 1 && IsWalk(TablesAfter(INITIAL, parts), pages, room, limit, None)
    ensures DescendingKeys(KeysOf(Received(pages)))
    ensures IsComplete(pages) ==>
      forall r :: LiveThroughout(TablesAfter(INITIAL, parts), r, room) ==> KeyOf(r) in KeysOf(Received(pages))
  {
    var tables := TablesAfter(INITIAL, parts);
    TablesEvolve(INITIAL, parts);
    WalkDescends(tables, pages, room, limit, None);
    forall r | IsComplete(pages) && LiveThroughout(tables, r, room) ensures KeyOf(r) in KeysOf(Received(pages)) {
      WalkMissesNothing(tables, pages, room, limit, None, r);
    }
  }

  /** No page read ever fails: not without a cursor, and not with one that an earlier page returned. */
  lemma PageReadsNeverFail(before: seq<Action>, between: seq<Action>, room: RoomId, limit: nat, cursor: Option<Id>)
    requires limit >= 1
    requires cursor.Some? ==> Find(Exec(INITIAL, before).rows, cursor.value).Some?
    ensures var s := Exec(INITIAL, before); var page := ReadPage(s.rows, room, cursor, limit);
            && page.Ok?
            && (page.value.next.Some? ==> Find(Exec(s, between).rows, page.value.next.value).Some?)
  {
    ExecKeepsInv(INITIAL, before);
    var s := Exec(INITIAL, before);
    InvMeansDecodable(s);
    DecodablePage(s.rows, room, cursor, limit);
    PageKeys(s.rows, room, cursor, limit);
    ExecKeepsInv(s, between);
    var next := ReadPage(s.rows, room, cursor, limit).value.next;
    if next.Some? {
      CursorSurvives(s.rows, Exec(s, between).rows, next.value);
    }
  }
}
