/** The message service run one call at a time. */
module MessageService {
  import opened Wrappers
  import opened MessageContent
  import opened MessageStore
  import opened MessageProtocol

  /** The service's own message type; a preview has the same fields on both sides. */
  datatype ServiceMessage = ServiceMessage(id: Id, room: RoomId, sender: UserId, kind: MessageType, content: Content,
                                           replyTo: Option<ReplyPreview>, deleted: bool, at: nat)

  function ToMessage(m: Message): ServiceMessage {
    ServiceMessage(m.id, m.room, m.sender, m.kind, ToContent(m.content), m.replyTo, m.deleted, m.at)
  }

  /** What the service's message shows of the row it was read from. */
  ghost predicate Shows(m: ServiceMessage, rows: Rows, row: Row) {
    && m.id == row.id && m.room == row.room && m.sender == row.sender && m.kind == row.kind && m.at == row.at
    && m.deleted == row.deleted && m.replyTo == PreviewOf(rows, row)
    && Unmarshal(row.kind, row.content) == Ok(ToRepoContent(m.content))
  }

  lemma ReadMessageShowsItsRow(rows: Rows, row: Row, m: Message)
    requires ReadRow(rows, row) == Ok(m)
    ensures Shows(ToMessage(m), rows, row)
  {
    assert ToRepoContent(ToContent(m.content)) == m.content;
  }

  /** The messages show the first rows of the listing below the cursor; `next` says whether there are more. */
  ghost predicate ShowsPage(messages: seq<ServiceMessage>, next: Option<Id>,
                            rows: Rows, room: RoomId, cursor: Option<Id>, limit: nat)
    requires limit >= 1
  {
    var l := Listing(rows, room, BoundOf(rows, cursor));
    && |messages| == |Take(l, limit)|
    && (forall i :: 0 <= i < |messages| ==> Shows(messages[i], rows, l[i]))
    && next == if |l| > limit then Some(l[limit - 1].id) else None
  }

  lemma PageIsShown(rows: Rows, room: RoomId, cursor: Option<Id>, limit: nat, messages: seq<ServiceMessage>)
    requires limit >= 1 && ReadPage(rows, room, cursor, limit).Ok?
    requires var page := ReadPage(rows, room, cursor, limit).value;
             && |messages| == |page.messages|
             && forall i :: 0 <= i < |messages| ==> messages[i] == ToMessage(page.messages[i])
    ensures ShowsPage(messages, ReadPage(rows, room, cursor, limit).value.next, rows, room, cursor, limit)
  {
    var l, page := Listing(rows, room, BoundOf(rows, cursor)), ReadPage(rows, room, cursor, limit).value;
    PageIsPrefix(rows, room, cursor, limit);
    forall i | 0 <= i < |messages| ensures Shows(messages[i], rows, l[i]) {
      ReadMessageShowsItsRow(rows, l[i], page.messages[i]);
    }
  }

  /** What SendMessage returns for the row it stored: everything but the reply preview. */
  ghost predicate ShowsNewRow(m: ServiceMessage, r: Request, row: Row, id: Id, at: nat)
    requires r.Send?
  {
    && StoredFor(row, r) && row.id == id && row.at == at && !row.deleted
    && m.id == row.id && m.room == row.room && m.sender == row.sender && m.kind == row.kind && m.at == row.at
    && !m.deleted && m.replyTo.None?
    && Unmarshal(row.kind, row.content) == Ok(ToRepoContent(m.content))
    && Render(m.kind, m.content, false) == (r.kind, Echo(r.content))
  }

  lemma NewRowIsShown(r: Request, id: Id, at: nat)
    requires r.Send? && Translate(r.kind, r.content).Ok?
    ensures var (msgType, content) := Translate(r.kind, r.content).value;
            var m := Message(id, r.room, r.sender, msgType, ToRepoContent(content), None, false, at);
            var row := Row(id, r.room, r.sender, msgType, Marshal(ToRepoContent(content)), r.replyTo, false, at);
            ShowsNewRow(ToMessage(m), r, row, id, at)
  {
    var (msgType, content) := Translate(r.kind, r.content).value;
    ContentSurvives(r.kind, r.content);
    AcceptedContentIsSelected(r.kind, r.content);
    DecodesExactlyIfSelected(msgType, ToRepoContent(content));
  }

  /** message.created, with its recipients. */
  datatype Event = MessageCreated(message: ServiceMessage, recipients: seq<UserId>)

  class Publisher {
    var log: seq<Event>

    constructor ()
      ensures log == []
    {
      log := [];
    }

    /** The broker takes the event or does not. */
    method PublishMessageCreated(m: ServiceMessage, recipients: seq<UserId>, accepts: bool) returns (ok: bool)
      modifies this
      ensures ok == accepts
      ensures log == if accepts then old(log) + [MessageCreated(m, recipients)] else old(log)
    {
      if accepts {
        log := log + [MessageCreated(m, recipients)];
      }
      return accepts;
    }
  }

  class Service {
    const repo: Repository
    const publisher: Publisher

    constructor (repo: Repository, publisher: Publisher)
      ensures this.repo == repo && this.publisher == publisher
    {
      this.repo, this.publisher := repo, publisher;
    }

    method CheckReplyTarget(room: RoomId, target: Id) returns (result: Result<(), Failure>)
      ensures result == CheckReply(repo.rows, room, target)
    {
      var original := repo.GetMessageByID(target);
      if original == Err(NotFound) {
        return Err(InvalidReplyTarget);
      }
      if original.Err? {
        return Err(Internal);
      }
      if original.value.deleted {
        return Err(InvalidReplyTarget);
      }
      if original.value.room != room {
        return Err(InvalidReplyTarget);
      }
      return Ok(());
    }

    /**
     The whole call, handler translation included. `isMember` and `members` are the room service's
     answers, the second one None if it fails; `accepts` is the broker's. Neither a failing read of the
     members nor a failing publication fails the call.
     */
    method SendMessage(r: Request, isMember: bool, members: Option<seq<UserId>>, accepts: bool, id: Id, at: nat)
      returns (result: Result<ServiceMessage, Failure>)
      requires r.Send? && repo.Valid() && Find(repo.rows, id).None?
      modifies repo, publisher
      ensures repo.Valid() && Evolves(old(repo.rows), repo.rows)
      ensures result.Ok? <==> Sendable(old(repo.rows), r, isMember)
      ensures result.Err? ==> repo.rows == old(repo.rows) && publisher.log == old(publisher.log)
      ensures result.Ok? ==>
        && |repo.rows| == |old(repo.rows)| + 1 && repo.rows[..|old(repo.rows)|] == old(repo.rows)
        && var row := repo.rows[|old(repo.rows)|];
           ShowsNewRow(result.value, r, row, id, at)
      ensures result.Ok? ==>
        publisher.log == old(publisher.log)
                         + if members.Some? && accepts then [MessageCreated(result.value, members.value)] else []
    {
      AcceptedExactlyIfAcceptable(r.kind, r.content);
      var translated := Translate(r.kind, r.content);
      if translated.Err? {
        return Err(BadRequest);
      }
      if !isMember {
        return Err(NotMember);
      }
      if r.replyTo.Some? {
        var checked := CheckReplyTarget(r.room, r.replyTo.value);
        if checked.Err? {
          return Err(checked.error);
        }
      }
      var (msgType, content) := translated.value;
      NewRowIsShown(r, id, at);
      var msg := repo.CreateMessage(r.room, r.sender, msgType, ToRepoContent(content), r.replyTo, id, at);
      var domainMsg := ToMessage(msg);
      if members.Some? {
        var published := publisher.PublishMessageCreated(domainMsg, members.value, accepts);
      }
      return Ok(domainMsg);
    }

    method DeleteMessage(messageID: Id, requesterID: UserId, isMember: bool) returns (result: Result<(), Failure>)
      requires repo.Valid()
      modifies repo
      ensures repo.Valid() && Evolves(old(repo.rows), repo.rows)
      ensures result.Ok? <==> Deletable(old(repo.rows), messageID, requesterID, isMember)
      ensures result.Err? ==> result.error == DeletionRefusal(old(repo.rows), messageID, requesterID, isMember)
      ensures repo.rows == if result.Ok? then Deleted(old(repo.rows), messageID) else old(repo.rows)
    {
      var msg := repo.GetMessageByID(messageID);
      if msg == Err(NotFound) {
        return Err(MessageMissing);
      }
      if msg.Err? {
        return Err(Internal);
      }
      if !isMember {
        return Err(NotMember);
      }
      if msg.value.sender != requesterID {
        return Err(NotOwner);
      }
      var deleted := repo.SoftDeleteMessage(messageID);
      if deleted.Err? {
        return Err(StoreMissing);
      }
      return Ok(());
    }

    /** For members: the first rows of the listing below the cursor, each shown with all its fields. */
    method GetMessages(room: RoomId, isMember: bool, cursor: Option<Id>, limit: nat)
      returns (result: Result<(seq<ServiceMessage>, Option<Id>), Failure>)
      requires limit >= 1
      ensures !isMember ==> result == Err(NotMember)
      ensures isMember && ReadPage(repo.rows, room, cursor, limit).Err? ==> result == Err(Internal)
      ensures isMember && ReadPage(repo.rows, room, cursor, limit).Ok? ==>
        result.Ok? && ShowsPage(result.value.0, result.value.1, repo.rows, room, cursor, limit)
    {
      if !isMember {
        return Err(NotMember);
      }
      var page := repo.GetMessagesByRoomID(room, cursor, limit);
      if page.Err? {
        return Err(Internal);
      }
      var msgs: seq<ServiceMessage> := [];
      for i := 0 to |page.value.messages|
        invariant |msgs| == i
        invariant forall k :: 0 <= k < i ==> msgs[k] == ToMessage(page.value.messages[k])
      {
        msgs := msgs + [ToMessage(page.value.messages[i])];
      }
      PageIsShown(repo.rows, room, cursor, limit, msgs);
      return Ok((msgs, page.value.next));
    }
  }
}
