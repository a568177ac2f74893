/**
 Refresh-token rotation as interleaved calls. A refresh first consumes the presented token and only
 later saves its successor; sign-ins, refreshes, logouts and expiry interleave freely, and any store
 command may fail, with or without having taken effect.

 Every sign-in starts a lineage, named after the call. The fields `origins`, `minted`, `users` and
 `redeemed` are history: they record where each token came from and which ones were consumed.
 */
module Sessions {
  import opened Wrappers
  import opened TokenRepository

  /** SignIn stands for Register and for Login, whose checks may turn the caller away. */
  datatype Request = SignIn(user: UserId) | Refresh(token: Token) | Logout(token: Token)

  datatype Failure = InvalidCredentials | InvalidToken | Internal

  /** Minting: generateTokenPair has yet to save the next token of the lineage. */
  datatype Stage = Begin | Minting(user: UserId, lineage: nat) | Finished(result: Result<Option<Token>, Failure>)

  datatype Fate = Works | Fails | WorksButReportsFailure

  datatype Call = Call(request: Request, stage: Stage)

  datatype Origin = Origin(lineage: nat, generation: nat)

  datatype State = State(
    keys: Keys, now: nat, calls: map<nat, Call>, generated: set<Token>,
    origins: map<Token, Origin>, minted: map<nat, nat>, users: map<nat, UserId>, redeemed: seq<Token>)

  const INITIAL := State(map[], 0, map[], {}, map[], map[], map[], [])

  datatype Action =
    | Start(id: nat, request: Request)
    | Advance(id: nat, newToken: Token, fate: Fate)
    | Pass(time: nat)

  predicate Enabled(s: State, a: Action) {
    match a
    case Start(id, _) => id !in s.calls
    case Advance(id, newToken, _) => id in s.calls && !s.calls[id].stage.Finished? && newToken !in s.generated
    case Pass(_) => true
  }

  function Goto(s: State, id: nat, stage: Stage): State
    requires id in s.calls
  {
    s.(calls := s.calls[id := Call(s.calls[id].request, stage)])
  }

  /** The credential checks: passing them opens a new lineage. */
  function StepSignIn(s: State, id: nat, user: UserId, fate: Fate): State
    requires id in s.calls
  {
    if fate != Works then Goto(s, id, Finished(Err(InvalidCredentials)))
    else Goto(s, id, Minting(user, id)).(minted := s.minted[id := 0], users := s.users[id := user])
  }

  function Consumed(s: State, token: Token): State {
    s.(keys := s.keys - {token}, redeemed := s.redeemed + [token])
  }

  /** ReviveRefreshToken. */
  function StepRefresh(s: State, id: nat, token: Token, fate: Fate): State
    requires id in s.calls
  {
    if fate == Fails then Goto(s, id, Finished(Err(Internal)))
    else if !IsLive(s.keys, s.now, token) || token !in s.origins then
      Goto(s, id, Finished(Err(if fate == Works then InvalidToken else Internal)))
    else
      Goto(Consumed(s, token), id,
           if fate == Works then Minting(s.keys[token].user, s.origins[token].lineage) else Finished(Err(Internal)))
  }

  /** DeleteRefreshToken. */
  function StepLogout(s: State, id: nat, token: Token, fate: Fate): State
    requires id in s.calls
  {
    var s' := if fate == Fails then s else s.(keys := s.keys - {token});
    Goto(s', id, Finished(if fate == Works then Ok(None) else Err(Internal)))
  }

  /** SaveRefreshToken of a fresh token. */
  function StepMint(s: State, ttl: nat, id: nat, user: UserId, lineage: nat, newToken: Token, fate: Fate): State
    requires id in s.calls
  {
    if fate == Fails || lineage !in s.minted then Goto(s, id, Finished(Err(Internal)))
    else
      var s' := Goto(s, id, Finished(if fate == Works then Ok(Some(newToken)) else Err(Internal)));
      s'.(keys := Save(s.keys, s.now, user, newToken, ttl),
          origins := s.origins[newToken := Origin(lineage, s.minted[lineage])],
          minted := s.minted[lineage := s.minted[lineage] + 1])
  }

  /** The next store command of a call. */
  function Step(ttl: nat, s: State, id: nat, newToken: Token, fate: Fate): State
    requires id in s.calls
  {
    var c := s.calls[id];
    if c.stage.Minting? then StepMint(s, ttl, id, c.stage.user, c.stage.lineage, newToken, fate)
    else
      match c.request
      case SignIn(user) => StepSignIn(s, id, user, fate)
      case Refresh(token) => StepRefresh(s, id, token, fate)
      case Logout(token) => StepLogout(s, id, token, fate)
  }

  function Do(ttl: nat, s: State, a: Action): State {
    if !Enabled(s, a) then s
    else
      match a
      case Pass(time) => s.(now := s.now + time)
      case Start(id, request) => s.(calls := s.calls[id := Call(request, Begin)])
      case Advance(id, newToken, fate) => Step(ttl, s.(generated := s.generated + {newToken}), id, newToken, fate)
  }

  function Exec(ttl: nat, s: State, actions: seq<Action>): State
    decreases |actions|
  {
    if actions == [] then s else Exec(ttl, Do(ttl, s, actions[0]), actions[1..])
  }

  // ---------- invariant ----------

  predicate InFlight(s: State, id: nat, lineage: nat) {
    id in s.calls && s.calls[id].stage.Minting? && s.calls[id].stage.lineage == lineage
  }

  /** The token of this generation has been consumed. */
  ghost predicate Spent(s: State, lineage: nat, generation: nat) {
    exists t :: t in s.redeemed && t in s.origins && s.origins[t] == Origin(lineage, generation)
  }

  predicate NoDuplicates(tokens: seq<Token>) {
    forall i, j :: 0 <= i < j < |tokens| ==> tokens[i] != tokens[j]
  }

  /** History is coherent: origins name opened lineages and each place in a lineage has one token. */
  ghost predicate HistoryOk(s: State) {
    && s.minted.Keys == s.users.Keys
    && s.origins.Keys <= s.generated
    && (forall l :: l in s.minted ==> l in s.calls && s.calls[l].request.SignIn? && !s.calls[l].stage.Begin?)
    && (forall t :: t in s.origins ==>
          s.origins[t].lineage in s.minted && s.origins[t].generation < s.minted[s.origins[t].lineage])
    && (forall t1, t2 :: t1 in s.origins && t2 in s.origins && s.origins[t1] == s.origins[t2] ==> t1 == t2)
  }

  /** A stored token is the newest of its lineage, nobody is about to replace it, and it names the right user. */
  ghost predicate KeysOk(s: State)
    requires HistoryOk(s)
  {
    && s.keys.Keys <= s.origins.Keys
    && (forall t :: t in s.keys ==>
          && s.origins[t].generation + 1 == s.minted[s.origins[t].lineage]
          && s.keys[t].user == s.users[s.origins[t].lineage])
    && (forall t, id :: t in s.keys ==> !InFlight(s, id, s.origins[t].lineage))
  }

  ghost predicate CallsOk(s: State)
    requires HistoryOk(s)
  {
    && (forall id, l :: InFlight(s, id, l) ==> l in s.users && s.calls[id].stage.user == s.users[l])
    && (forall id1, id2, l :: InFlight(s, id1, l) && InFlight(s, id2, l) ==> id1 == id2)
  }

  ghost predicate RedeemedOk(s: State) {
    && NoDuplicates(s.redeemed)
    && (forall t :: t in s.redeemed ==> t in s.origins && t !in s.keys)
    && (forall l, g: nat :: l in s.minted && g + 1 < s.minted[l] ==> Spent(s, l, g))
    && (forall id, l, g: nat :: InFlight(s, id, l) && l in s.minted && g < s.minted[l] ==> Spent(s, l, g))
  }

  ghost predicate Inv(s: State) {
    HistoryOk(s) && KeysOk(s) && CallsOk(s) && RedeemedOk(s)
  }

  // ---------- every step keeps it ----------

  /** A call leaves the protocol, or enters it before minting: nothing else changes. */
  lemma GotoKeepsInv(s: State, id: nat, stage: Stage)
    requires Inv(s) && id in s.calls && !stage.Minting? && !stage.Begin?
    ensures Inv(Goto(s, id, stage))
  {
    var s' := Goto(s, id, stage);
    forall i, l ensures InFlight(s', i, l) <==> i != id && InFlight(s, i, l) {
    }
    SameHistorySpent(s, s');
  }

  lemma SameHistorySpent(s: State, s': State)
    requires s'.origins == s.origins && s'.redeemed == s.redeemed
    ensures forall l, g :: Spent(s', l, g) <==> Spent(s, l, g)
  {
    forall l, g ensures Spent(s', l, g) <==> Spent(s, l, g) {
    }
  }

  lemma SignInKeepsInv(s: State, id: nat, user: UserId)
    requires Inv(s) && id in s.calls && s.calls[id].request.SignIn? && s.calls[id].stage.Begin?
    ensures Inv(StepSignIn(s, id, user, Works))
  {
    var s' := StepSignIn(s, id, user, Works);
    forall i, l ensures InFlight(s', i, l) <==> if i == id then l == id else InFlight(s, i, l) {
    }
    SameHistorySpent(s, s');
  }

  lemma ConsumeKeepsInv(s: State, id: nat, token: Token, fate: Fate)
    requires Inv(s) && id in s.calls && s.calls[id].request.Refresh? && s.calls[id].stage.Begin?
    requires IsLive(s.keys, s.now, token)
    requires fate != Fails
    ensures Inv(StepRefresh(s, id, token, fate))
  {
    ConsumedKeepsInv(s, token);
    if fate == Works {
      HoldKeepsInv(Consumed(s, token), id, s.keys[token].user, s.origins[token].lineage);
    } else {
      GotoKeepsInv(Consumed(s, token), id, Finished(Err(Internal)));
    }
  }

  /** A call may hold a lineage whose tokens are all consumed and that nobody else holds. */
  lemma HoldKeepsInv(s: State, id: nat, user: UserId, lineage: nat)
    requires Inv(s) && id in s.calls && s.calls[id].stage.Begin?
    requires lineage in s.users && s.users[lineage] == user
    requires forall t :: t in s.keys ==> s.origins[t].lineage != lineage
    requires forall i :: !InFlight(s, i, lineage)
    requires forall g: nat :: g < s.minted[lineage] ==> Spent(s, lineage, g)
    ensures Inv(Goto(s, id, Minting(user, lineage)))
  {
    var s' := Goto(s, id, Minting(user, lineage));
    forall i, l ensures InFlight(s', i, l) <==> if i == id then l == lineage else InFlight(s, i, l) {
    }
    SameHistorySpent(s, s');
  }

  lemma ConsumedKeepsInv(s: State, token: Token)
    requires Inv(s) && token in s.keys
    ensures Inv(Consumed(s, token))
    ensures var s' := Consumed(s, token); var l := s.origins[token].lineage;
            && (forall t :: t in s'.keys ==> s'.origins[t].lineage != l)
            && (forall i :: !InFlight(s', i, l))
            && (forall g: nat :: g < s.minted[l] ==> Spent(s', l, g))
  {
    var s' := Consumed(s, token);
    forall t | t in s'.keys ensures s'.origins[t].lineage != s.origins[token].lineage {
      assert s.origins[t] != s.origins[token];
    }
    assert Spent(s', s.origins[token].lineage, s.origins[token].generation) by {
      assert s'.redeemed[|s.redeemed|] == token;
    }
    forall i, l ensures InFlight(s', i, l) <==> InFlight(s, i, l) {
    }
    forall l, g | Spent(s, l, g) ensures Spent(s', l, g) {
      var t :| t in s.redeemed && t in s.origins && s.origins[t] == Origin(l, g);
      assert t in s'.redeemed;
    }
  }

  lemma DeleteKeepsInv(s: State, token: Token)
    requires Inv(s)
    ensures Inv(s.(keys := s.keys - {token}))
  {
    var s' := s.(keys := s.keys - {token});
    forall i, l ensures InFlight(s', i, l) <==> InFlight(s, i, l) {
    }
    SameHistorySpent(s, s');
  }

  ghost predicate MayMint(s: State, id: nat, newToken: Token) {
    Inv(s) && id in s.calls && s.calls[id].stage.Minting? && newToken !in s.origins && newToken in s.generated
  }

  function Mint(s: State, ttl: nat, id: nat, newToken: Token, fate: Fate): State
    requires id in s.calls && s.calls[id].stage.Minting?
  {
    StepMint(s, ttl, id, s.calls[id].stage.user, s.calls[id].stage.lineage, newToken, fate)
  }

  lemma MintFrees(s: State, ttl: nat, id: nat, newToken: Token, fate: Fate)
    requires MayMint(s, id, newToken) && fate != Fails
    ensures forall i, l :: InFlight(Mint(s, ttl, id, newToken, fate), i, l) <==> i != id && InFlight(s, i, l)
    ensures InFlight(s, id, s.calls[id].stage.lineage)
    ensures forall l, g :: Spent(s, l, g) ==> Spent(Mint(s, ttl, id, newToken, fate), l, g)
  {
    assert InFlight(s, id, s.calls[id].stage.lineage);
    var s' := Mint(s, ttl, id, newToken, fate);
    forall i, l ensures InFlight(s', i, l) <==> i != id && InFlight(s, i, l) {
    }
    forall l, g | Spent(s, l, g) ensures Spent(s', l, g) {
      var t :| t in s.redeemed && t in s.origins && s.origins[t] == Origin(l, g);
      assert t in s'.redeemed && s'.origins[t] == s.origins[t];
    }
  }

  lemma MintKeepsHistory(s: State, ttl: nat, id: nat, newToken: Token, fate: Fate)
    requires MayMint(s, id, newToken) && fate != Fails
    ensures HistoryOk(Mint(s, ttl, id, newToken, fate))
  {
    MintFrees(s, ttl, id, newToken, fate);
  }

  lemma MintKeepsKeys(s: State, ttl: nat, id: nat, newToken: Token, fate: Fate)
    requires MayMint(s, id, newToken) && fate != Fails && HistoryOk(Mint(s, ttl, id, newToken, fate))
    ensures KeysOk(Mint(s, ttl, id, newToken, fate))
  {
    MintFrees(s, ttl, id, newToken, fate);
    var s' := Mint(s, ttl, id, newToken, fate);
    var lineage := s.calls[id].stage.lineage;
    forall t | t in s'.keys && t != newToken
      ensures t in s.keys && s'.origins[t] == s.origins[t] && s.origins[t].lineage != lineage
    {
      assert !InFlight(s, id, s.origins[t].lineage);
    }
    forall i ensures !InFlight(s', i, lineage) {
      assert i != id ==> !InFlight(s, i, lineage);
    }
  }

  lemma MintKeepsCalls(s: State, ttl: nat, id: nat, newToken: Token, fate: Fate)
    requires MayMint(s, id, newToken) && fate != Fails && HistoryOk(Mint(s, ttl, id, newToken, fate))
    ensures CallsOk(Mint(s, ttl, id, newToken, fate))
  {
    MintFrees(s, ttl, id, newToken, fate);
  }

  lemma MintKeepsRedeemed(s: State, ttl: nat, id: nat, newToken: Token, fate: Fate)
    requires MayMint(s, id, newToken) && fate != Fails
    ensures RedeemedOk(Mint(s, ttl, id, newToken, fate))
  {
    MintFrees(s, ttl, id, newToken, fate);
    var s' := Mint(s, ttl, id, newToken, fate);
    var lineage := s.calls[id].stage.lineage;
    forall l, g: nat | l in s'.minted && g + 1 < s'.minted[l] ensures Spent(s', l, g) {
      if l == lineage {
        assert InFlight(s, id, l);
      }
    }
  }

  lemma MintKeepsInv(s: State, ttl: nat, id: nat, newToken: Token, fate: Fate)
    requires MayMint(s, id, newToken) && fate != Fails
    ensures Inv(Mint(s, ttl, id, newToken, fate))
  {
    MintKeepsHistory(s, ttl, id, newToken, fate);
    MintKeepsKeys(s, ttl, id, newToken, fate);
    MintKeepsCalls(s, ttl, id, newToken, fate);
    MintKeepsRedeemed(s, ttl, id, newToken, fate);
  }

  /** Changes of the clock, of the generated set or of calls outside minting do not matter. */
  lemma BystanderKeepsInv(s: State, s': State)
    requires Inv(s)
    requires s'.keys == s.keys && s'.origins == s.origins && s'.minted == s.minted && s'.users == s.users
    requires s'.redeemed == s.redeemed && s.generated <= s'.generated
    requires forall id :: id in s.calls ==> id in s'.calls && s'.calls[id] == s.calls[id]
    requires forall id :: id in s'.calls && id !in s.calls ==> s'.calls[id].stage.Begin?
    ensures Inv(s')
  {
    forall i, l ensures InFlight(s', i, l) <==> InFlight(s, i, l) {
    }
    SameHistorySpent(s, s');
  }

  lemma DoKeepsInv(ttl: nat, s: State, a: Action)
    requires Inv(s)
    ensures Inv(Do(ttl, s, a))
  {
    if Enabled(s, a) {
      match a
      case Pass(_) => BystanderKeepsInv(s, Do(ttl, s, a));
      case Start(_, _) => BystanderKeepsInv(s, Do(ttl, s, a));
      case Advance(id, newToken, fate) =>
        var s1 := s.(generated := s.generated + {newToken});
        BystanderKeepsInv(s, s1);
        AdvanceKeepsInv(ttl, s1, id, newToken, fate);
    }
  }

  lemma AdvanceKeepsInv(ttl: nat, s: State, id: nat, newToken: Token, fate: Fate)
    requires Inv(s) && id in s.calls && !s.calls[id].stage.Finished? && newToken !in s.origins
    requires newToken in s.generated
    ensures Inv(Step(ttl, s, id, newToken, fate))
  {
    var c := s.calls[id];
    if c.stage.Minting? {
      if fate == Fails {
        GotoKeepsInv(s, id, Finished(Err(Internal)));
      } else {
        MintKeepsInv(s, ttl, id, newToken, fate);
      }
      assert InFlight(s, id, c.stage.lineage);
    } else {
      match c.request
      case SignIn(user) =>
        if fate == Works {
          SignInKeepsInv(s, id, user);
        } else {
          GotoKeepsInv(s, id, Finished(Err(InvalidCredentials)));
        }
      case Refresh(token) => RefreshKeepsInv(s, id, token, fate);
      case Logout(token) => LogoutKeepsInv(s, id, token, fate);
    }
  }

  lemma RefreshKeepsInv(s: State, id: nat, token: Token, fate: Fate)
    requires Inv(s) && id in s.calls && s.calls[id].request.Refresh? && s.calls[id].stage.Begin?
    ensures Inv(StepRefresh(s, id, token, fate))
  {
    if fate == Fails {
      GotoKeepsInv(s, id, Finished(Err(Internal)));
    } else if IsLive(s.keys, s.now, token) {
      ConsumeKeepsInv(s, id, token, fate);
    } else {
      GotoKeepsInv(s, id, Finished(Err(if fate == Works then InvalidToken else Internal)));
    }
  }

  lemma LogoutKeepsInv(s: State, id: nat, token: Token, fate: Fate)
    requires Inv(s) && id in s.calls
    ensures Inv(StepLogout(s, id, token, fate))
  {
    if fate == Fails {
      GotoKeepsInv(s, id, Finished(Err(Internal)));
    } else {
      DeleteKeepsInv(s, token);
      GotoKeepsInv(s.(keys := s.keys - {token}), id, Finished(if fate == Works then Ok(None) else Err(Internal)));
    }
  }

  lemma {:induction false} ExecKeepsInv(ttl: nat, s: State, actions: seq<Action>)
    requires Inv(s)
    ensures Inv(Exec(ttl, s, actions))
    decreases |actions|
  {
    if actions != [] {
      DoKeepsInv(ttl, s, actions[0]);
      ExecKeepsInv(ttl, Do(ttl, s, actions[0]), actions[1..]);
    }
  }

  // ---------- results over every interleaving ----------

  ghost function StoredTokens(s: State, lineage: nat): set<Token> {
    set t | t in s.keys && t in s.origins && s.origins[t].lineage == lineage
  }

  ghost function CallsInFlight(s: State, lineage: nat): set<nat> {
    set id | id in s.calls && InFlight(s, id, lineage)
  }

  lemma AtMostOneElement<T>(s: set<T>)
    requires forall x, y :: x in s && y in s ==> x == y
    ensures |s| <= 1
  {
    if s != {} {
      var x :| x in s;
      assert s == {x};
    }
  }

  /** Each login has at most one token stored or one call about to mint one, never both. */
  lemma OneTokenPerLogin(ttl: nat, actions: seq<Action>, lineage: nat)
    ensures var s := Exec(ttl, INITIAL, actions);
            |StoredTokens(s, lineage)| + |CallsInFlight(s, lineage)| <= 1
  {
    ExecKeepsInv(ttl, INITIAL, actions);
    var s := Exec(ttl, INITIAL, actions);
    AtMostOneElement(StoredTokens(s, lineage));
    AtMostOneElement(CallsInFlight(s, lineage));
    assert StoredTokens(s, lineage) == {} || CallsInFlight(s, lineage) == {};
  }

  /** A stored token names the user of the sign-in it descends from. */
  lemma StoredTokenNamesItsUser(ttl: nat, actions: seq<Action>, token: Token)
    requires token in Exec(ttl, INITIAL, actions).keys
    ensures var s := Exec(ttl, INITIAL, actions);
            && token in s.origins && s.origins[token].lineage in s.calls
            && s.calls[s.origins[token].lineage].request == SignIn(s.keys[token].user)
  {
    ExecKeepsInv(ttl, INITIAL, actions);
    ExecKeepsUsers(ttl, INITIAL, actions);
  }

  /** The user of a lineage is the one that signed in. */
  ghost predicate UsersOk(s: State) {
    forall l :: l in s.users ==> l in s.calls && s.calls[l].request == SignIn(s.users[l])
  }

  /** A step changes the stage of its call only. */
  lemma StepKeepsRequests(ttl: nat, s: State, id: nat, newToken: Token, fate: Fate)
    requires id in s.calls
    ensures Step(ttl, s, id, newToken, fate).calls.Keys == s.calls.Keys
    ensures forall i :: i in s.calls ==> Step(ttl, s, id, newToken, fate).calls[i].request == s.calls[i].request
  {
    var c := s.calls[id];
    if c.stage.Minting? {
      assert StepMint(s, ttl, id, c.stage.user, c.stage.lineage, newToken, fate).calls.Keys == s.calls.Keys;
    } else {
      match c.request
      case SignIn(user) => assert StepSignIn(s, id, user, fate).calls.Keys == s.calls.Keys;
      case Refresh(token) => assert StepRefresh(s, id, token, fate).calls.Keys == s.calls.Keys;
      case Logout(token) => assert StepLogout(s, id, token, fate).calls.Keys == s.calls.Keys;
    }
  }

  /** A sign-in enters only its own user. */
  lemma StepRecordsUser(ttl: nat, s: State, id: nat, newToken: Token, fate: Fate)
    requires id in s.calls
    ensures var users := Step(ttl, s, id, newToken, fate).users; var r := s.calls[id].request;
            users == s.users || (r.SignIn? && users == s.users[id := r.user])
  {
  }

  lemma DoKeepsUsers(ttl: nat, s: State, a: Action)
    requires UsersOk(s)
    ensures UsersOk(Do(ttl, s, a))
  {
    if Enabled(s, a) && a.Advance? {
      var s1 := s.(generated := s.generated + {a.newToken});
      StepKeepsRequests(ttl, s1, a.id, a.newToken, a.fate);
      StepRecordsUser(ttl, s1, a.id, a.newToken, a.fate);
    }
  }

  lemma {:induction false} ExecKeepsUsers(ttl: nat, s: State, actions: seq<Action>)
    requires UsersOk(s)
    ensures UsersOk(Exec(ttl, s, actions))
    decreases |actions|
  {
    if actions != [] {
      DoKeepsUsers(ttl, s, actions[0]);
      ExecKeepsUsers(ttl, Do(ttl, s, actions[0]), actions[1..]);
    }
  }

  /** No token is redeemed twice, and each later token of a lineage was paid for with the one before. */
  lemma TokensAreRedeemedOnce(ttl: nat, actions: seq<Action>)
    ensures var s := Exec(ttl, INITIAL, actions);
            && NoDuplicates(s.redeemed)
            && forall l, g: nat :: l in s.minted && g + 1 < s.minted[l] ==> Spent(s, l, g)
  {
    ExecKeepsInv(ttl, INITIAL, actions);
  }

  /** Presenting a redeemed token again is refused. */
  lemma RedeemedTokenIsRefused(ttl: nat, s: State, id: nat, newToken: Token, token: Token)
    requires Inv(s) && token in s.redeemed
    requires Enabled(s, Advance(id, newToken, Works)) && s.calls[id] == Call(Refresh(token), Begin)
    ensures Do(ttl, s, Advance(id, newToken, Works)).calls[id].stage == Finished(Err(InvalidToken))
  {
  }

  // ---------- when a session is over ----------

  /** Nothing of the lineage can be redeemed and nobody is about to mint. */
  ghost predicate Over(s: State, lineage: nat) {
    && (forall t :: t in s.origins && s.origins[t].lineage == lineage ==> !IsLive(s.keys, s.now, t))
    && (forall id :: !InFlight(s, id, lineage))
  }

  lemma OverStaysOver(ttl: nat, s: State, a: Action, lineage: nat)
    requires Inv(s) && lineage in s.minted && Over(s, lineage)
    ensures Over(Do(ttl, s, a), lineage) && lineage in Do(ttl, s, a).minted
  {
    if Enabled(s, a) {
      if a.Advance? {
        OverAfterAdvance(ttl, s, a.id, a.newToken, a.fate, lineage);
      } else {
        var s' := Do(ttl, s, a);
        forall id ensures !InFlight(s', id, lineage) {
          assert !InFlight(s, id, lineage);
        }
      }
    }
  }

  lemma OverAfterAdvance(ttl: nat, s: State, id: nat, newToken: Token, fate: Fate, lineage: nat)
    requires Inv(s) && lineage in s.minted && Over(s, lineage) && Enabled(s, Advance(id, newToken, fate))
    ensures var s' := Do(ttl, s, Advance(id, newToken, fate)); Over(s', lineage) && lineage in s'.minted
  {
    var c := s.calls[id];
    var s1 := s.(generated := s.generated + {newToken});
    var s' := Do(ttl, s, Advance(id, newToken, fate));
    if c.stage.Minting? {
      assert InFlight(s, id, c.stage.lineage);
      assert s' == StepMint(s1, ttl, id, c.stage.user, c.stage.lineage, newToken, fate);
      assert newToken !in s.origins;
    } else if c.request.SignIn? {
      assert s' == StepSignIn(s1, id, c.request.user, fate);
      assert id != lineage;
    } else if c.request.Refresh? {
      assert s' == StepRefresh(s1, id, c.request.token, fate);
    } else {
      assert s' == StepLogout(s1, id, c.request.token, fate);
    }
    assert s'.calls == s.calls[id := s'.calls[id]];
    assert !InFlight(s', id, lineage);
    forall i ensures !InFlight(s', i, lineage) {
      assert !InFlight(s, i, lineage);
    }
  }

  /** Once over, a session is over for good. */
  lemma {:induction false} OverForGood(ttl: nat, s: State, actions: seq<Action>, lineage: nat)
    requires Inv(s) && lineage in s.minted && Over(s, lineage)
    ensures Over(Exec(ttl, s, actions), lineage)
    decreases |actions|
  {
    if actions != [] {
      OverStaysOver(ttl, s, actions[0], lineage);
      DoKeepsInv(ttl, s, actions[0]);
      OverForGood(ttl, Do(ttl, s, actions[0]), actions[1..], lineage);
    }
  }

  /** The session's live tokens; in a reachable state there is at most one. */
  ghost predicate OnlyLiveToken(s: State, lineage: nat, token: Token) {
    forall t :: t in s.origins && s.origins[t].lineage == lineage && IsLive(s.keys, s.now, t) ==> t == token
  }

  /**
   Logging out with any token of a session always succeeds. It ends the session exactly if no refresh of
   the session is between its two steps and no other token of the session is live: a refresh that has
   consumed its token, or one that has already replaced the presented token, lets the session go on.
   */
  lemma LogoutEndsSession(ttl: nat, s: State, id: nat, newToken: Token, token: Token)
    requires token in s.origins
    requires Enabled(s, Advance(id, newToken, Works)) && s.calls[id] == Call(Logout(token), Begin)
    ensures var s' := Do(ttl, s, Advance(id, newToken, Works)); var lineage := s.origins[token].lineage;
            && s'.calls[id].stage == Finished(Ok(None))
            && (Over(s', lineage) <==>
                (forall other :: !InFlight(s, other, lineage)) && OnlyLiveToken(s, lineage, token))
  {
    var s' := Do(ttl, s, Advance(id, newToken, Works));
    var lineage := s.origins[token].lineage;
    forall i ensures InFlight(s', i, lineage) <==> InFlight(s, i, lineage) {
    }
  }

  /** A session's newest token is its only live one, so logging out with it fails only because of a refresh. */
  lemma NewestTokenIsTheLiveOne(s: State, token: Token)
    requires Inv(s) && token in s.origins
    requires s.origins[token].generation + 1 == s.minted[s.origins[token].lineage]
    ensures OnlyLiveToken(s, s.origins[token].lineage, token)
  {
    forall t | t in s.keys && s.origins[t].lineage == s.origins[token].lineage ensures t == token {
      assert s.origins[t] == s.origins[token];
    }
  }

  lemma ExecTwo(ttl: nat, s: State, a: Action, b: Action)
    ensures Exec(ttl, s, [a, b]) == Do(ttl, Do(ttl, s, a), b)
  {
    assert [a, b][1..] == [b] && [b][1..] == [];
    assert Exec(ttl, Do(ttl, s, a), [b]) == Do(ttl, Do(ttl, s, a), b);
  }

  lemma {:induction false} ExecAppend(ttl: nat, s: State, a: seq<Action>, b: seq<Action>)
    ensures Exec(ttl, s, a + b) == Exec(ttl, Exec(ttl, s, a), b)
    decreases |a|
  {
    if a == [] {
      assert a + b == b;
    } else {
      assert (a + b)[1..] == a[1..] + b;
      ExecAppend(ttl, Do(ttl, s, a[0]), a[1..], b);
    }
  }

  /** One user signs in and gets token 10. */
  const SIGNED_IN := [Start(0, SignIn(7)), Advance(0, 8, Works)] + [Advance(0, 10, Works), Start(1, Refresh(10))]

  /** A refresh replaces token 10 by 12, and then another client logs out with token 10. */
  const REPLACED := [Advance(1, 11, Works), Advance(1, 12, Works)] + [Start(2, Logout(10)), Advance(2, 13, Works)]

  /** After the sign-in token 10 is stored, and its refresh is about to start. */
  lemma SignedIn(ttl: nat)
    ensures var s := Exec(ttl, INITIAL, SIGNED_IN);
            && s.keys == map[10 := Entry(7, ttl)] && s.now == 0 && s.generated == {8, 10}
            && s.origins == map[10 := Origin(0, 0)] && s.minted == map[0 := 1]
            && s.calls == map[0 := Call(SignIn(7), Finished(Ok(Some(10)))), 1 := Call(Refresh(10), Begin)]
  {
    ExecAppend(ttl, INITIAL, SIGNED_IN[..2], SIGNED_IN[2..]);
    ExecTwo(ttl, INITIAL, SIGNED_IN[0], SIGNED_IN[1]);
    ExecTwo(ttl, Exec(ttl, INITIAL, SIGNED_IN[..2]), SIGNED_IN[2], SIGNED_IN[3]);
  }

  /** The refresh takes token 10 and stores token 12 for the same sign-in. */
  lemma Replaced(ttl: nat, s: State) returns (s': State)
    requires ttl > 0 && s.keys == map[10 := Entry(7, ttl)] && s.now == 0 && s.generated == {8, 10}
    requires s.origins == map[10 := Origin(0, 0)] && s.minted == map[0 := 1]
    requires s.calls == map[0 := Call(SignIn(7), Finished(Ok(Some(10)))), 1 := Call(Refresh(10), Begin)]
    ensures s' == Exec(ttl, s, REPLACED[..2])
    ensures s'.keys == map[12 := Entry(7, ttl)] && s'.now == 0 && s'.generated == {8, 10, 11, 12}
    ensures s'.origins == map[10 := Origin(0, 0), 12 := Origin(0, 1)]
    ensures s'.calls == map[0 := s.calls[0], 1 := Call(Refresh(10), Finished(Ok(Some(12))))]
  {
    var s1 := Do(ttl, s, Advance(1, 11, Works));
    assert s1.calls[1] == Call(Refresh(10), Minting(7, 0));
    s' := Do(ttl, s1, Advance(1, 12, Works));
    ExecTwo(ttl, s, REPLACED[0], REPLACED[1]);
    assert REPLACED[..2] == [REPLACED[0], REPLACED[1]];
  }

  /** The logout finds nothing to delete, and token 12 is still live. */
  lemma LogsOutInVain(ttl: nat, s: State) returns (s': State)
    requires ttl > 0 && s.keys == map[12 := Entry(7, ttl)] && s.now == 0 && s.generated == {8, 10, 11, 12}
    requires s.calls.Keys == {0, 1} && s.calls[0].stage.Finished? && s.calls[1].stage.Finished?
    ensures s' == Exec(ttl, s, REPLACED[2..])
    ensures s'.keys == s.keys && s'.now == 0 && s'.origins == s.origins
    ensures s'.calls == s.calls[2 := Call(Logout(10), Finished(Ok(None)))]
  {
    s' := Do(ttl, Do(ttl, s, Start(2, Logout(10))), Advance(2, 13, Works));
    ExecTwo(ttl, s, REPLACED[2], REPLACED[3]);
    assert REPLACED[2..] == [REPLACED[2], REPLACED[3]];
  }

  /**
   The second way a logout fails, without any call in flight: the logout succeeds and the session's newer
   token stays live.
   */
  lemma LogoutWithReplacedToken(ttl: nat)
    requires ttl > 0
    ensures var s := Exec(ttl, INITIAL, SIGNED_IN + REPLACED);
            && 2 in s.calls && s.calls[2] == Call(Logout(10), Finished(Ok(None)))
            && (forall id :: !InFlight(s, id, 0))
            && 10 in s.origins && 12 in s.origins && s.origins[10].lineage == s.origins[12].lineage == 0
            && IsLive(s.keys, s.now, 12) && !Over(s, 0)
  {
    SignedIn(ttl);
    var s4 := Exec(ttl, INITIAL, SIGNED_IN);
    var s6 := Replaced(ttl, s4);
    var s8 := LogsOutInVain(ttl, s6);
    ExecAppend(ttl, s4, REPLACED[..2], REPLACED[2..]);
    assert REPLACED[..2] + REPLACED[2..] == REPLACED;
    ExecAppend(ttl, INITIAL, SIGNED_IN, REPLACED);
  }

  /** The refresh consumes token 10, another client logs out with it, and then the refresh saves token 12. */
  const OVERTAKEN := [Advance(1, 11, Works), Start(2, Logout(10))] + [Advance(2, 13, Works), Advance(1, 12, Works)]

  /** The refresh is between its two steps when the logout starts. */
  lemma Consumes(ttl: nat, s: State) returns (s': State)
    requires ttl > 0 && s.keys == map[10 := Entry(7, ttl)] && s.now == 0 && s.generated == {8, 10}
    requires s.origins == map[10 := Origin(0, 0)] && s.minted == map[0 := 1]
    requires s.calls == map[0 := Call(SignIn(7), Finished(Ok(Some(10)))), 1 := Call(Refresh(10), Begin)]
    ensures s' == Exec(ttl, s, [OVERTAKEN[0], OVERTAKEN[1]])
    ensures s'.keys == map[] && s'.now == 0 && s'.generated == {8, 10, 11} && s'.origins == s.origins
    ensures s'.minted == map[0 := 1]
    ensures s'.calls == map[0 := s.calls[0], 1 := Call(Refresh(10), Minting(7, 0)), 2 := Call(Logout(10), Begin)]
  {
    s' := Do(ttl, Do(ttl, s, Advance(1, 11, Works)), Start(2, Logout(10)));
    ExecTwo(ttl, s, OVERTAKEN[0], OVERTAKEN[1]);
  }

  /** The logout deletes nothing, and the refresh saves its token. */
  lemma LogsOutAndMints(ttl: nat, s: State) returns (s': State)
    requires ttl > 0 && s.keys == map[] && s.now == 0 && s.generated == {8, 10, 11}
    requires s.origins == map[10 := Origin(0, 0)] && s.minted == map[0 := 1] && s.calls.Keys == {0, 1, 2}
    requires s.calls[1] == Call(Refresh(10), Minting(7, 0)) && s.calls[2] == Call(Logout(10), Begin)
    ensures s' == Exec(ttl, s, [OVERTAKEN[2], OVERTAKEN[3]])
    ensures s'.keys == map[12 := Entry(7, ttl)] && s'.now == 0
    ensures s'.origins == map[10 := Origin(0, 0), 12 := Origin(0, 1)]
    ensures s'.calls.Keys == {0, 1, 2} && s'.calls[1] == Call(Refresh(10), Finished(Ok(Some(12))))
    ensures s'.calls[2] == Call(Logout(10), Finished(Ok(None)))
  {
    s' := Do(ttl, Do(ttl, s, Advance(2, 13, Works)), Advance(1, 12, Works));
    ExecTwo(ttl, s, OVERTAKEN[2], OVERTAKEN[3]);
  }

  /**
   The first way a logout fails: it comes between the two steps of a refresh, succeeds, and the session
   lives on with the token that the refresh then saves.
   */
  lemma LogoutDuringRefresh(ttl: nat)
    requires ttl > 0
    ensures var s := Exec(ttl, INITIAL, SIGNED_IN + OVERTAKEN);
            && 2 in s.calls && s.calls[2] == Call(Logout(10), Finished(Ok(None)))
            && 1 in s.calls && s.calls[1] == Call(Refresh(10), Finished(Ok(Some(12))))
            && 10 in s.origins && 12 in s.origins && s.origins[10].lineage == s.origins[12].lineage == 0
            && IsLive(s.keys, s.now, 12) && !Over(s, 0)
  {
    SignedIn(ttl);
    var s4 := Exec(ttl, INITIAL, SIGNED_IN);
    var s6 := Consumes(ttl, s4);
    var s8 := LogsOutAndMints(ttl, s6);
    ExecAppend(ttl, s4, [OVERTAKEN[0], OVERTAKEN[1]], [OVERTAKEN[2], OVERTAKEN[3]]);
    assert [OVERTAKEN[0], OVERTAKEN[1]] + [OVERTAKEN[2], OVERTAKEN[3]] == OVERTAKEN;
    ExecAppend(ttl, INITIAL, SIGNED_IN, OVERTAKEN);
  }
}
