/**
 Creating users from registration events, which the broker may deliver any number of times.

 A delivery runs the service's retry loop; every database statement in it is one atomic step, and
 deliveries of the same or of other events interleave freely. Generated usernames are arbitrary.
 */
module Users {
  import opened Wrappers

  type UserId = int
  type Name = int

  datatype User = User(username: Name, displayName: Name)

  type Table = map<UserId, User>

  predicate Taken(users: Table, name: Name) {
    exists u :: u in users && users[u].username == name
  }

  /** INSERT INTO users: the id is the primary key and the username is unique. */
  predicate Insertable(users: Table, id: UserId, name: Name) {
    id !in users && !Taken(users, name)
  }

  // ---------- one delivery ----------

  datatype Payload = Malformed | Registered(user: UserId)

  datatype Verdict = Ack | Nak | Term

  const MAX_ATTEMPTS := 3

  type Attempt = n: nat | n < MAX_ATTEMPTS

  /** The statement a delivery runs next. */
  datatype Stage =
    | Received
    | CheckingId(n: Attempt)
    | CheckingName(n: Attempt, name: Name)
    | Inserting(name: Name)
    | Fetching
    | Settled(verdict: Verdict)

  datatype Fate = Works | Fails | WorksButReportsFailure

  datatype Insert = Insert(user: UserId, name: Name)

  datatype Effect = Effect(users: Table, inserted: seq<Insert>, stage: Stage)

  /** `name` is what an attempt generates; a failing generator is a failing first statement. */
  function Step(users: Table, payload: Payload, stage: Stage, name: Name, fate: Fate): Effect {
    if payload.Malformed? then Effect(users, [], Settled(Term))
    else
      match stage
      case Received => Effect(users, [], CheckingId(0))
      case CheckingId(n) =>
        if fate != Works then Effect(users, [], Settled(Nak))
        else Effect(users, [], if payload.user in users then Fetching else CheckingName(n, name))
      case CheckingName(n, chosen) =>
        if fate != Works then Effect(users, [], Settled(Nak))
        else if !Taken(users, chosen) then Effect(users, [], Inserting(chosen))
        else Effect(users, [], if n + 1 < MAX_ATTEMPTS then CheckingId(n + 1) else Settled(Nak))
      case Inserting(chosen) =>
        // a violated constraint is an error like any other, not one of the two "already exists"
        if fate == Fails || !Insertable(users, payload.user, chosen) then Effect(users, [], Settled(Nak))
        else
          Effect(users[payload.user := User(chosen, chosen)], [Insert(payload.user, chosen)],
                 Settled(if fate == Works then Ack else Nak))
      case Fetching =>
        Effect(users, [], Settled(if fate == Works && payload.user in users then Ack else Nak))
      case Settled(_) => Effect(users, [], stage)
  }

  // ---------- interleaved deliveries ----------

  datatype Delivery = Delivery(payload: Payload, stage: Stage)

  /** `inserts` is history: the rows inserted, in order. */
  datatype State = State(users: Table, deliveries: map<nat, Delivery>, inserts: seq<Insert>)

  const INITIAL := State(map[], map[], [])

  datatype Action =
    | Deliver(id: nat, payload: Payload)
    | Advance(id: nat, name: Name, fate: Fate)
    | UpdateUser(user: UserId, displayName: Name)

  predicate Enabled(s: State, a: Action) {
    match a
    case Deliver(id, _) => id !in s.deliveries
    case Advance(id, _, _) => id in s.deliveries && !s.deliveries[id].stage.Settled?
    case UpdateUser(user, _) => user in s.users
  }

  function Do(s: State, a: Action): State {
    if !Enabled(s, a) then s
    else
      match a
      case Deliver(id, payload) => s.(deliveries := s.deliveries[id := Delivery(payload, Received)])
      case Advance(id, name, fate) =>
        var d := s.deliveries[id];
        var e := Step(s.users, d.payload, d.stage, name, fate);
        State(e.users, s.deliveries[id := Delivery(d.payload, e.stage)], s.inserts + e.inserted)
      case UpdateUser(user, displayName) => s.(users := s.users[user := s.users[user].(displayName := displayName)])
  }

  function Exec(s: State, actions: seq<Action>): State
    decreases |actions|
  {
    if actions == [] then s else Exec(Do(s, actions[0]), actions[1..])
  }

  // ---------- invariant ----------

  /** The table is what the inserts made of it: one row per user, under the inserted name. */
  ghost predicate Recorded(s: State) {
    && (forall i, j :: 0 <= i < j < |s.inserts| ==>
          s.inserts[i].user != s.inserts[j].user && s.inserts[i].name != s.inserts[j].name)
    && (forall i :: 0 <= i < |s.inserts| ==>
          s.inserts[i].user in s.users && s.users[s.inserts[i].user].username == s.inserts[i].name)
    && (forall u :: u in s.users ==> exists i :: 0 <= i < |s.inserts| && s.inserts[i].user == u)
  }

  ghost predicate DeliveryOk(users: Table, d: Delivery) {
    match d.stage
    case Received => true
    case Settled(Ack) => d.payload.Registered? && d.payload.user in users
    case Settled(Nak) => d.payload.Registered?
    case Settled(Term) => d.payload.Malformed?
    case Fetching => d.payload.Registered? && d.payload.user in users
    case CheckingId(_) => d.payload.Registered?
    case CheckingName(_, _) => d.payload.Registered?
    case Inserting(_) => d.payload.Registered?
  }

  ghost predicate Inv(s: State) {
    Recorded(s) && forall id :: id in s.deliveries ==> DeliveryOk(s.users, s.deliveries[id])
  }

  /** What every step promises: rows stay, with their usernames. */
  ghost predicate KeepsUsernames(before: Table, after: Table) {
    forall u :: u in before ==> u in after && after[u].username == before[u].username
  }

  lemma InsertIsRecorded(s: State, user: UserId, name: Name)
    requires Recorded(s) && Insertable(s.users, user, name)
    ensures Recorded(s.(users := s.users[user := User(name, name)], inserts := s.inserts + [Insert(user, name)]))
  {
    var inserts := s.inserts + [Insert(user, name)];
    var users := s.users[user := User(name, name)];
    forall u | u in users ensures exists i :: 0 <= i < |inserts| && inserts[i].user == u {
      if u == user {
        assert inserts[|s.inserts|].user == u;
      } else {
        var i :| 0 <= i < |s.inserts| && s.inserts[i].user == u;
        assert inserts[i].user == u;
      }
    }
  }

  lemma StepIsOk(users: Table, d: Delivery, name: Name, fate: Fate)
    requires DeliveryOk(users, d) && !d.stage.Settled?
    ensures var e := Step(users, d.payload, d.stage, name, fate);
            && DeliveryOk(e.users, Delivery(d.payload, e.stage))
            && KeepsUsernames(users, e.users)
            && (e.inserted == [] ==> e.users == users)
            && (e.inserted != [] ==>
                  && d.payload.Registered? && d.stage.Inserting? && Insertable(users, d.payload.user, d.stage.name)
                  && e.inserted == [Insert(d.payload.user, d.stage.name)]
                  && e.users == users[d.payload.user := User(d.stage.name, d.stage.name)])
  {
  }

  lemma OtherDeliveriesStayOk(before: Table, after: Table, d: Delivery)
    requires DeliveryOk(before, d) && KeepsUsernames(before, after)
    ensures DeliveryOk(after, d)
  {
  }

  lemma DoKeepsInv(s: State, a: Action)
    requires Inv(s)
    ensures Inv(Do(s, a)) && KeepsUsernames(s.users, Do(s, a).users)
  {
    if Enabled(s, a) && a.Advance? {
      var d := s.deliveries[a.id];
      var e := Step(s.users, d.payload, d.stage, a.name, a.fate);
      StepIsOk(s.users, d, a.name, a.fate);
      if e.inserted == [] {
        assert s.inserts + e.inserted == s.inserts;
      } else {
        InsertIsRecorded(s, d.payload.user, d.stage.name);
      }
    }
    var s' := Do(s, a);
    forall id | id in s'.deliveries ensures DeliveryOk(s'.users, s'.deliveries[id]) {
      if id in s.deliveries && s'.deliveries[id] == s.deliveries[id] {
        OtherDeliveriesStayOk(s.users, s'.users, s.deliveries[id]);
      }
    }
  }

  lemma {:induction false} ExecKeepsInv(s: State, actions: seq<Action>)
    requires Inv(s)
    ensures Inv(Exec(s, actions)) && KeepsUsernames(s.users, Exec(s, actions).users)
    decreases |actions|
  {
    if actions != [] {
      DoKeepsInv(s, actions[0]);
      ExecKeepsInv(Do(s, actions[0]), actions[1..]);
    }
  }

  // ---------- results over every interleaving ----------

  /** However often an event is delivered: each user was inserted at most once and has that insert's username. */
  lemma FirstInsertDecides(actions: seq<Action>, i: nat)
    requires i < |Exec(INITIAL, actions).inserts|
    ensures var s := Exec(INITIAL, actions); var row := s.inserts[i];
            && row.user in s.users && s.users[row.user].username == row.name
            && forall j :: 0 <= j < |s.inserts| && j != i ==>
              s.inserts[j].user != row.user && s.inserts[j].name != row.name
  {
    ExecKeepsInv(INITIAL, actions);
  }

  /** A user, once there, stays and keeps the username. */
  lemma UsernameIsForGood(before: seq<Action>, after: seq<Action>, user: UserId)
    requires user in Exec(INITIAL, before).users
    ensures var s := Exec(INITIAL, before); var s' := Exec(s, after);
            user in s'.users && s'.users[user].username == s.users[user].username
  {
    ExecKeepsInv(INITIAL, before);
    ExecKeepsInv(Exec(INITIAL, before), after);
  }

  /** Ack is only sent when the user exists, and Term exactly for malformed payloads. */
  lemma VerdictsAreRight(actions: seq<Action>, id: nat)
    requires var s := Exec(INITIAL, actions); id in s.deliveries && s.deliveries[id].stage.Settled?
    ensures var s := Exec(INITIAL, actions); var d := s.deliveries[id];
            && (d.stage.verdict == Ack ==> d.payload.Registered? && d.payload.user in s.users)
            && (d.stage.verdict == Term <==> d.payload.Malformed?)
  {
    ExecKeepsInv(INITIAL, actions);
  }

  /**
   Two deliveries of one event, both past their checks: whichever inserts first settles with Ack, the
   other one finds the constraint violated and settles with Nak, although the user exists.
   */
  lemma LoserOfTheRaceGetsNak(s: State, a: nat, b: nat, user: UserId, name: Name, other: Name)
    requires a != b && a in s.deliveries && b in s.deliveries
    requires s.deliveries[a] == Delivery(Registered(user), Inserting(name))
    requires s.deliveries[b] == Delivery(Registered(user), Inserting(other))
    requires Insertable(s.users, user, name)
    ensures var s' := Exec(s, [Advance(a, name, Works), Advance(b, other, Works)]);
            && s'.users == s.users[user := User(name, name)]
            && var acked, naked := Delivery(Registered(user), Settled(Ack)), Delivery(Registered(user), Settled(Nak));
               s'.deliveries == s.deliveries[a := acked][b := naked]
  {
    var s1 := Do(s, Advance(a, name, Works));
    var actions := [Advance(a, name, Works), Advance(b, other, Works)];
    assert actions[1..][0] == Advance(b, other, Works) && actions[1..][1..] == [];
    assert Exec(s1, actions[1..]) == Do(s1, Advance(b, other, Works));
  }

  // ---------- every delivery settles ----------

  function Rank(stage: Stage): nat {
    match stage
    case Received => 8
    case CheckingId(n) => 2 * (MAX_ATTEMPTS - n) + 1
    case CheckingName(n, _) => 2 * (MAX_ATTEMPTS - n)
    case Inserting(_) => 1
    case Fetching => 1
    case Settled(_) => 0
  }

  lemma StepLowersRank(users: Table, payload: Payload, stage: Stage, name: Name, fate: Fate)
    requires !stage.Settled?
    ensures Rank(Step(users, payload, stage, name, fate).stage) < Rank(stage)
  {
  }

  function OwnSteps(actions: seq<Action>, id: nat): nat {
    if actions == [] then 0
    else (if actions[0].Advance? && actions[0].id == id then 1 else 0) + OwnSteps(actions[1..], id)
  }

  /** Eight statements settle a delivery, whatever the others do and whatever fails. */
  lemma {:induction false} DeliverySettles(s: State, actions: seq<Action>, id: nat)
    requires id in s.deliveries
    ensures id in Exec(s, actions).deliveries
    ensures OwnSteps(actions, id) >= Rank(s.deliveries[id].stage) ==> Exec(s, actions).deliveries[id].stage.Settled?
    decreases |actions|
  {
    if actions != [] {
      var a, s' := actions[0], Do(s, actions[0]);
      if a.Advance? && a.id == id && Enabled(s, a) {
        StepLowersRank(s.users, s.deliveries[id].payload, s.deliveries[id].stage, a.name, a.fate);
      }
      assert || s'.deliveries[id].stage == s.deliveries[id].stage
             || Rank(s'.deliveries[id].stage) < Rank(s.deliveries[id].stage);
      DeliverySettles(s', actions[1..], id);
    }
  }

  // ---------- when a delivery is acknowledged ----------

  /** The statements of this delivery all work. */
  predicate OwnStepsWork(actions: seq<Action>, id: nat) {
    forall i :: 0 <= i < |actions| && actions[i].Advance? && actions[i].id == id ==> actions[i].fate == Works
  }

  /** On the way to Ack for an existing user. */
  predicate OnTrack(users: Table, d: Delivery) {
    && d.payload.Registered? && d.payload.user in users
    && (d.stage.Received? || d.stage.CheckingId? || d.stage.Fetching? || d.stage == Settled(Ack))
  }

  lemma DoKeepsUsernames(s: State, a: Action)
    ensures KeepsUsernames(s.users, Do(s, a).users)
  {
  }

  lemma {:induction false} ExistingUserStaysOnTrack(s: State, actions: seq<Action>, id: nat)
    requires id in s.deliveries && OnTrack(s.users, s.deliveries[id]) && OwnStepsWork(actions, id)
    ensures id in Exec(s, actions).deliveries && OnTrack(Exec(s, actions).users, Exec(s, actions).deliveries[id])
    decreases |actions|
  {
    if actions != [] {
      DoKeepsUsernames(s, actions[0]);
      assert OwnStepsWork(actions[1..], id);
      ExistingUserStaysOnTrack(Do(s, actions[0]), actions[1..], id);
    }
  }

  /**
   A delivery for a user who exists when it starts, and whose own statements work, is acknowledged after
   at most eight of them, in every interleaving and whatever happens to the others.
   */
  lemma RedeliveryIsAcknowledged(s: State, actions: seq<Action>, id: nat, user: UserId)
    requires id in s.deliveries && s.deliveries[id] == Delivery(Registered(user), Received) && user in s.users
    requires OwnStepsWork(actions, id) && OwnSteps(actions, id) >= 8
    ensures id in Exec(s, actions).deliveries && Exec(s, actions).deliveries[id].stage == Settled(Ack)
  {
    ExistingUserStaysOnTrack(s, actions, id);
    DeliverySettles(s, actions, id);
  }

  /** What one of the delivery's own statements saw: the table, and the name generated for it. */
  datatype View = View(users: Table, name: Name)

  /** The views of the delivery's statements during a run. */
  function Views(s: State, actions: seq<Action>, id: nat): seq<View>
    decreases |actions|
  {
    if actions == [] then []
    else
      var rest := Views(Do(s, actions[0]), actions[1..], id);
      if actions[0].Advance? && actions[0].id == id && Enabled(s, actions[0])
      then [View(s.users, actions[0].name)] + rest
      else rest
  }

  /** The views take a delivery from this stage to its verdict, and not beyond. */
  predicate LeadTo(user: UserId, stage: Stage, views: seq<View>, verdict: Verdict)
    decreases |views|
  {
    if stage.Settled? then views == [] && stage.verdict == verdict
    else
      && views != []
      && var next := Step(views[0].users, Registered(user), stage, views[0].name, Works).stage;
         LeadTo(user, next, views[1..], verdict)
  }

  /** Nobody disappears from one view to the next. */
  ghost predicate Growing(views: seq<View>) {
    forall i, j :: 0 <= i <= j < |views| ==> KeepsUsernames(views[i].users, views[j].users)
  }

  lemma {:induction false} ViewsDecide(s: State, actions: seq<Action>, id: nat, user: UserId)
    requires id in s.deliveries && s.deliveries[id].payload == Registered(user) && OwnStepsWork(actions, id)
    ensures id in Exec(s, actions).deliveries
    ensures var stage := Exec(s, actions).deliveries[id].stage;
            stage.Settled? ==> LeadTo(user, s.deliveries[id].stage, Views(s, actions, id), stage.verdict)
    ensures Growing([View(s.users, 0)] + Views(s, actions, id))
    decreases |actions|
  {
    if actions != [] {
      var s' := Do(s, actions[0]);
      DoKeepsUsernames(s, actions[0]);
      assert OwnStepsWork(actions[1..], id);
      ViewsDecide(s', actions[1..], id, user);
      GrowsFrom(s.users, s'.users, Views(s', actions[1..], id));
      var own := actions[0].Advance? && actions[0].id == id && Enabled(s, actions[0]);
      if own {
        var views := [View(s.users, actions[0].name)] + Views(s', actions[1..], id);
        assert Views(s, actions, id) == views && views[1..] == Views(s', actions[1..], id);
        GrowsTwice(s.users, actions[0].name, Views(s', actions[1..], id));
      } else {
        assert Views(s, actions, id) == Views(s', actions[1..], id);
      }
    }
  }

  lemma GrowsFrom(before: Table, after: Table, views: seq<View>)
    requires KeepsUsernames(before, after) && Growing([View(after, 0)] + views)
    ensures Growing([View(before, 0)] + views)
  {
    var old', new' := [View(after, 0)] + views, [View(before, 0)] + views;
    forall i, j | 0 <= i <= j < |new'| ensures KeepsUsernames(new'[i].users, new'[j].users) {
      assert KeepsUsernames(old'[i].users, old'[j].users);
    }
  }

  lemma GrowsTwice(users: Table, name: Name, views: seq<View>)
    requires Growing([View(users, 0)] + views)
    ensures Growing([View(users, 0)] + ([View(users, name)] + views))
  {
    var old', new' := [View(users, 0)] + views, [View(users, 0)] + ([View(users, name)] + views);
    forall i, j | 0 <= i <= j < |new'| ensures KeepsUsernames(new'[i].users, new'[j].users) {
      var i', j' := if i == 0 then 0 else i - 1, if j == 0 then 0 else j - 1;
      assert KeepsUsernames(old'[i'].users, old'[j'].users);
    }
  }

  /**
   The last three statements found the id missing, the name free, and then one of them inserted after all:
   somebody else came between the check and the insert.
   */
  predicate LostRace(user: UserId, views: seq<View>) {
    && |views| >= 3 && |views| % 2 == 1
    && var c := |views| - 3;
       && user !in views[c].users && !Taken(views[c + 1].users, views[c].name)
       && (user in views[c + 2].users || Taken(views[c + 2].users, views[c].name))
  }

  /** Each of the remaining attempts found its name taken. */
  predicate OutOfNames(user: UserId, views: seq<View>, attempts: nat) {
    && |views| == 2 * attempts
    && forall k :: 0 <= k < attempts ==> user !in views[2 * k].users && Taken(views[2 * k + 1].users, views[2 * k].name)
  }

  lemma OutOfNamesStartsMissing(user: UserId, views: seq<View>, attempts: nat)
    ensures OutOfNames(user, views, attempts) && attempts >= 1 ==> views != [] && user !in views[0].users
  {
    if OutOfNames(user, views, attempts) && attempts >= 1 {
      assert user !in views[2 * 0].users;
    }
  }

  lemma {:induction false} AttemptsDecide(user: UserId, n: Attempt, views: seq<View>, verdict: Verdict)
    requires LeadTo(user, CheckingId(n), views, verdict) && Growing(views)
    ensures verdict == Nak <==> LostRace(user, views) || OutOfNames(user, views, MAX_ATTEMPTS - n)
    decreases |views|
  {
    var rest := views[1..];
    if user in views[0].users {
      assert LeadTo(user, Fetching, rest, verdict);
      assert KeepsUsernames(views[0].users, views[1].users);
      assert rest[0] == views[1] && user in rest[0].users;
      assert LeadTo(user, Settled(Ack), rest[1..], verdict);
      assert |views| == 2;
      OutOfNamesStartsMissing(user, views, MAX_ATTEMPTS - n);
    } else {
      var name := views[0].name;
      assert LeadTo(user, CheckingName(n, name), rest, verdict);
      var next := Step(rest[0].users, Registered(user), CheckingName(n, name), rest[0].name, Works).stage;
      assert LeadTo(user, next, rest[1..], verdict);
      assert rest[1..] == views[2..] && rest[0] == views[1];
      if !Taken(views[1].users, name) {
        InsertDecides(user, name, views[2..], verdict);
      } else if n + 1 < MAX_ATTEMPTS {
        NextAttempt(user, n, views, verdict);
      }
    }
  }

  lemma InsertDecides(user: UserId, name: Name, views: seq<View>, verdict: Verdict)
    requires LeadTo(user, Inserting(name), views, verdict)
    ensures |views| == 1 && (verdict == Nak <==> !Insertable(views[0].users, user, name))
  {
    var next := Step(views[0].users, Registered(user), Inserting(name), views[0].name, Works).stage;
    assert LeadTo(user, next, views[1..], verdict);
  }

  lemma {:induction false} NextAttempt(user: UserId, n: Attempt, views: seq<View>, verdict: Verdict)
    requires n + 1 < MAX_ATTEMPTS && |views| >= 2 && Growing(views)
    requires user !in views[0].users && Taken(views[1].users, views[0].name)
    requires LeadTo(user, CheckingId(n + 1), views[2..], verdict)
    ensures verdict == Nak <==> LostRace(user, views) || OutOfNames(user, views, MAX_ATTEMPTS - n)
    decreases |views|, 0
  {
    var rest := views[2..];
    forall i, j | 0 <= i <= j < |rest| ensures KeepsUsernames(rest[i].users, rest[j].users) {
      assert KeepsUsernames(views[i + 2].users, views[j + 2].users);
    }
    AttemptsDecide(user, n + 1, rest, verdict);
    TwoMoreNames(user, views, MAX_ATTEMPTS - n);
    TakesThree(user, n + 1, rest, verdict);
  }

  /** An attempt takes at least two statements. */
  lemma TakesThree(user: UserId, n: Attempt, views: seq<View>, verdict: Verdict)
    requires LeadTo(user, CheckingId(n), views, verdict)
    ensures |views| >= 2
  {
    var next := Step(views[0].users, Registered(user), CheckingId(n), views[0].name, Works).stage;
    assert LeadTo(user, next, views[1..], verdict);
  }

  lemma TwoMoreNames(user: UserId, views: seq<View>, attempts: nat)
    requires attempts >= 1 && |views| >= 2 && user !in views[0].users && Taken(views[1].users, views[0].name)
    ensures OutOfNames(user, views, attempts) <==> OutOfNames(user, views[2..], attempts - 1)
  {
    var rest := views[2..];
    if OutOfNames(user, rest, attempts - 1) {
      forall k | 0 <= k < attempts
        ensures user !in views[2 * k].users && Taken(views[2 * k + 1].users, views[2 * k].name)
      {
        if k > 0 {
          assert user !in rest[2 * (k - 1)].users && Taken(rest[2 * (k - 1) + 1].users, rest[2 * (k - 1)].name);
        }
      }
    }
    if OutOfNames(user, views, attempts) {
      forall k | 0 <= k < attempts - 1
        ensures user !in rest[2 * k].users && Taken(rest[2 * k + 1].users, rest[2 * k].name)
      {
        assert user !in views[2 * (k + 1)].users && Taken(views[2 * (k + 1) + 1].users, views[2 * (k + 1)].name);
      }
    }
  }

  /**
   The verdict of a delivery whose own statements work, in every interleaving: Nak exactly if the id or the
   chosen name was inserted by somebody else after its check, or all three names were taken when checked;
   otherwise Ack.
   */
  lemma NakExactlyIf(s: State, actions: seq<Action>, id: nat, user: UserId)
    requires id in s.deliveries && s.deliveries[id] == Delivery(Registered(user), Received) && OwnStepsWork(actions, id)
    requires id in Exec(s, actions).deliveries && Exec(s, actions).deliveries[id].stage.Settled?
    ensures var verdict := Exec(s, actions).deliveries[id].stage.verdict; var views := Views(s, actions, id);
            && views != [] && verdict != Term
            && (verdict == Nak <==> LostRace(user, views[1..]) || OutOfNames(user, views[1..], MAX_ATTEMPTS))
  {
    ViewsDecide(s, actions, id, user);
    var views := Views(s, actions, id);
    var verdict := Exec(s, actions).deliveries[id].stage.verdict;
    assert LeadTo(user, CheckingId(0), views[1..], verdict);
    var all := [View(s.users, 0)] + views;
    forall i, j | 0 <= i <= j < |views[1..]| ensures KeepsUsernames(views[1..][i].users, views[1..][j].users) {
      assert KeepsUsernames(all[i + 2].users, all[j + 2].users);
    }
    AttemptsDecide(user, 0, views[1..], verdict);
    NeverTerm(user, CheckingId(0), views[1..], verdict);
  }

  lemma {:induction false} NeverTerm(user: UserId, stage: Stage, views: seq<View>, verdict: Verdict)
    requires LeadTo(user, stage, views, verdict) && stage != Settled(Term)
    ensures verdict != Term
    decreases |views|
  {
    if !stage.Settled? {
      NeverTerm(user, Step(views[0].users, Registered(user), stage, views[0].name, Works).stage, views[1..], verdict);
    }
  }

  // ---------- the race, from the start ----------

  lemma {:induction false} ExecAppend(s: State, a: seq<Action>, b: seq<Action>)
    ensures Exec(s, a + b) == Exec(Exec(s, a), b)
    decreases |a|
  {
    if a == [] {
      assert a + b == b;
    } else {
      assert (a + b)[1..] == a[1..] + b;
      ExecAppend(Do(s, a[0]), a[1..], b);
    }
  }

  /** One more action of a run. */
  lemma Then(start: State, s: State, done: seq<Action>, a: Action) returns (s': State, actions: seq<Action>)
    requires s == Exec(start, done)
    ensures s' == Do(s, a) && s' == Exec(start, actions)
  {
    s', actions := Do(s, a), done + [a];
    ExecAppend(start, done, [a]);
    assert [a][1..] == [];
  }

  /** A new delivery gets past both of its checks. */
  lemma PassesChecks(start: State, s: State, done: seq<Action>, id: nat, user: UserId, name: Name)
    returns (s': State, actions: seq<Action>)
    requires s == Exec(start, done) && id !in s.deliveries && Insertable(s.users, user, name)
    ensures s' == Exec(start, actions)
    ensures s' == s.(deliveries := s.deliveries[id := Delivery(Registered(user), Inserting(name))])
  {
    var s1, actions1 := Then(start, s, done, Deliver(id, Registered(user)));
    var s2, actions2 := Then(start, s1, actions1, Advance(id, name, Works));
    var s3, actions3 := Then(start, s2, actions2, Advance(id, name, Works));
    s', actions := Then(start, s3, actions3, Advance(id, name, Works));
    assert s'.inserts == s.inserts;
    assert s'.deliveries == s.deliveries[id := Delivery(Registered(user), Inserting(name))];
  }

  /**
   From any state in which a user is missing, the start included, an event delivered twice can end in one
   Ack and one Nak although no statement fails and the user exists afterwards.
   */
  lemma RaceHappens(s: State, user: UserId, name: Name, other: Name, a: nat, b: nat) returns (actions: seq<Action>)
    requires Insertable(s.users, user, name) && Insertable(s.users, user, other)
    requires a != b && a !in s.deliveries && b !in s.deliveries
    ensures var s' := Exec(s, actions);
            && s'.users == s.users[user := User(name, name)]
            && a in s'.deliveries && s'.deliveries[a] == Delivery(Registered(user), Settled(Ack))
            && b in s'.deliveries && s'.deliveries[b] == Delivery(Registered(user), Settled(Nak))
  {
    var s1, actions1 := PassesChecks(s, s, [], a, user, name);
    var s2, actions2 := PassesChecks(s, s1, actions1, b, user, other);
    var inserts := [Advance(a, name, Works), Advance(b, other, Works)];
    LoserOfTheRaceGetsNak(s2, a, b, user, name, other);
    actions := actions2 + inserts;
    ExecAppend(s, actions2, inserts);
  }

  lemma RaceFromTheStart(user: UserId, name: Name, other: Name) returns (actions: seq<Action>)
    ensures var s := Exec(INITIAL, actions);
            && user in s.users
            && 0 in s.deliveries && s.deliveries[0] == Delivery(Registered(user), Settled(Ack))
            && 1 in s.deliveries && s.deliveries[1] == Delivery(Registered(user), Settled(Nak))
  {
    actions := RaceHappens(INITIAL, user, name, other, 0, 1);
  }

  // ---------- a delivery that runs alone ----------

  /** The first of the generated names that nobody has. */
  function FirstFree(users: Table, names: seq<Name>): Option<Name> {
    if names == [] then None
    else if !Taken(users, names[0]) then Some(names[0])
    else FirstFree(users, names[1..])
  }

  /** What creating a user amounts to: the table after it, and the row returned. */
  function Created(users: Table, user: UserId, names: seq<Name>): (Table, Option<User>) {
    if user in users then (users, Some(users[user]))
    else
      match FirstFree(users, names)
      case None => (users, None)
      case Some(name) => (users[user := User(name, name)], Some(User(name, name)))
  }

  /** The statements of one delivery in a row; attempt n generates names[n]. */
  function RunAlone(users: Table, user: UserId, stage: Stage, names: seq<Name>): (Table, Verdict)
    requires |names| == MAX_ATTEMPTS
    decreases Rank(stage)
  {
    if stage.Settled? then (users, stage.verdict)
    else
      var e := Step(users, Registered(user), stage, if stage.CheckingId? then names[stage.n] else 0, Works);
      RunAlone(e.users, user, e.stage, names)
  }

  lemma {:induction false} RunAloneFromAttempt(users: Table, user: UserId, n: Attempt, names: seq<Name>)
    requires |names| == MAX_ATTEMPTS
    ensures var (after, row) := Created(users, user, names[n..]);
            RunAlone(users, user, CheckingId(n), names) == (after, if row.Some? then Ack else Nak)
    decreases MAX_ATTEMPTS - n
  {
    if user !in users {
      assert RunAlone(users, user, CheckingId(n), names) == RunAlone(users, user, CheckingName(n, names[n]), names);
      if !Taken(users, names[n]) {
        assert RunAlone(users, user, CheckingName(n, names[n]), names)
               == RunAlone(users, user, Inserting(names[n]), names);
        var after := users[user := User(names[n], names[n])];
        assert RunAlone(users, user, Inserting(names[n]), names) == RunAlone(after, user, Settled(Ack), names);
      } else if n + 1 < MAX_ATTEMPTS {
        assert names[n..][1..] == names[n + 1..];
        RunAloneFromAttempt(users, user, n + 1, names);
      } else {
        assert names[n..][1..] == [];
        assert FirstFree(users, names[n..]).None?;
        assert RunAlone(users, user, CheckingName(n, names[n]), names) == RunAlone(users, user, Settled(Nak), names);
      }
    } else {
      assert RunAlone(users, user, CheckingId(n), names) == RunAlone(users, user, Fetching, names);
      assert RunAlone(users, user, Fetching, names) == RunAlone(users, user, Settled(Ack), names);
    }
  }

  /**
   With nobody in between and nothing failing, a delivery creates the user under the first free name,
   or leaves an existing user alone; it is acknowledged exactly if the user was there or a name was free.
   */
  lemma AloneCreatesOnce(users: Table, user: UserId, names: seq<Name>)
    requires |names| == MAX_ATTEMPTS
    ensures var (after, verdict) := RunAlone(users, user, Received, names);
            && after == Created(users, user, names).0
            && (verdict == Ack <==> user in users || exists i :: 0 <= i < |names| && !Taken(users, names[i]))
            && (verdict == Ack ==> RunAlone(after, user, Received, names) == (after, Ack))
  {
    assert names[0..] == names;
    RunAloneFromAttempt(users, user, 0, names);
    FirstFreeIsFree(users, names);
    RunAloneFromAttempt(Created(users, user, names).0, user, 0, names);
  }

  lemma {:induction false} FirstFreeIsFree(users: Table, names: seq<Name>)
    ensures FirstFree(users, names).Some? <==> exists i :: 0 <= i < |names| && !Taken(users, names[i])
    ensures FirstFree(users, names).Some? ==> !Taken(users, FirstFree(users, names).value)
  {
    if names != [] {
      FirstFreeIsFree(users, names[1..]);
      if exists i :: 0 < i < |names| && !Taken(users, names[i]) {
        var i :| 0 < i < |names| && !Taken(users, names[i]);
        assert !Taken(users, names[1..][i - 1]);
      }
    }
  }

  // ---------- the objects ----------

  datatype Error = UserAlreadyExists | UsernameAlreadyExists | UserNotFound

  class Repository {
    var users: Table

    constructor ()
      ensures users == map[]
    {
      users := map[];
    }

    method CreateUser(id: UserId, username: Name, displayName: Name) returns (r: Result<User, Error>)
      modifies this
      ensures r == if id in old(users) then Err(UserAlreadyExists)
                   else if Taken(old(users), username) then Err(UsernameAlreadyExists)
                   else Ok(User(username, displayName))
      ensures users == if r.Ok? then old(users)[id := r.value] else old(users)
    {
      if id in users {
        return Err(UserAlreadyExists);
      }
      if Taken(users, username) {
        return Err(UsernameAlreadyExists);
      }
      var user := User(username, displayName);
      users := users[id := user];
      return Ok(user);
    }

    method GetUserByID(id: UserId) returns (r: Result<User, Error>)
      ensures r == if id in users then Ok(users[id]) else Err(UserNotFound)
    {
      if id !in users {
        return Err(UserNotFound);
      }
      return Ok(users[id]);
    }
  }

  class Service {
    const userRepo: Repository

    constructor (userRepo: Repository)
      ensures this.userRepo == userRepo
    {
      this.userRepo := userRepo;
    }

    /** `names` are what the generator returns, attempt by attempt. */
    method CreateUser(userID: UserId, names: seq<Name>) returns (r: Option<User>)
      requires |names| == MAX_ATTEMPTS
      modifies userRepo
      ensures (userRepo.users, r) == Created(old(userRepo.users), userID, names)
    {
      var attempt := 0;
      while attempt < MAX_ATTEMPTS
        invariant 0 <= attempt <= MAX_ATTEMPTS && userRepo.users == old(userRepo.users)
        invariant attempt > 0 ==> userID !in userRepo.users
        invariant FirstFree(userRepo.users, names) == FirstFree(userRepo.users, names[attempt..])
      {
        var username := names[attempt];
        assert names[attempt..][1..] == names[attempt + 1..];
        var user := userRepo.CreateUser(userID, username, username);
        if user.Ok? {
          return Some(user.value);
        }
        if user.error == UserAlreadyExists {
          var existing := userRepo.GetUserByID(userID);
          return Some(existing.value);
        }
        attempt := attempt + 1;
      }
      return None;
    }
  }

  class Subscriber {
    const svc: Service

    constructor (svc: Service)
      ensures this.svc == svc
    {
      this.svc := svc;
    }

    method HandleMessage(payload: Payload, names: seq<Name>) returns (verdict: Verdict)
      requires |names| == MAX_ATTEMPTS
      modifies svc.userRepo
      ensures payload.Malformed? ==> verdict == Term && svc.userRepo.users == old(svc.userRepo.users)
      ensures payload.Registered? ==>
        (svc.userRepo.users, verdict) == RunAlone(old(svc.userRepo.users), payload.user, Received, names)
    {
      if payload.Malformed? {
        return Term;
      }
      assert names[0..] == names;
      RunAloneFromAttempt(svc.userRepo.users, payload.user, 0, names);
      var user := svc.CreateUser(payload.user, names);
      if user.None? {
        return Nak;
      }
      return Ack;
    }
  }
}
