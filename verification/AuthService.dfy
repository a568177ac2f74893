/** The token part of the auth service, one call at a time, and how it fits the interleaved steps. */
module AuthService {
  import opened Wrappers
  import opened TokenRepository
  import S = Sessions

  datatype TokenError = InvalidToken

  class Service {
    const tokens: Repository
    const refreshTTL: nat

    constructor (tokens: Repository, refreshTTL: nat)
      ensures this.tokens == tokens && this.refreshTTL == refreshTTL
    {
      this.tokens, this.refreshTTL := tokens, refreshTTL;
    }

    /** `newToken` is the generated uuid. Afterwards it is live for the user until the ttl is over. */
    method GenerateTokenPair(now: nat, userID: UserId, newToken: Token) returns (refreshToken: Token)
      modifies tokens
      ensures refreshToken == newToken && tokens.keys == Save(old(tokens.keys), now, userID, newToken, refreshTTL)
    {
      tokens.SaveRefreshToken(now, userID, newToken, refreshTTL);
      return newToken;
    }

    method RefreshToken(now: nat, refreshToken: Token, newToken: Token) returns (r: Result<Token, TokenError>)
      modifies tokens
      ensures r == if IsLive(old(tokens.keys), now, refreshToken) then Ok(newToken) else Err(InvalidToken)
      ensures r.Err? ==> tokens.keys == old(tokens.keys)
      ensures var old' := old(tokens.keys);
              r.Ok? ==> tokens.keys == Save(old' - {refreshToken}, now, old'[refreshToken].user, newToken, refreshTTL)
    {
      var userID := tokens.ReviveRefreshToken(now, refreshToken);
      if userID.Err? {
        return Err(InvalidToken);
      }
      var pair := GenerateTokenPair(now, userID.value, newToken);
      return Ok(pair);
    }

    method Logout(refreshToken: Token)
      modifies tokens
      ensures tokens.keys == old(tokens.keys) - {refreshToken}
    {
      tokens.DeleteRefreshToken(refreshToken);
    }
  }

  /** A refresh whose two steps nobody comes between hands the session over to its new token. */
  lemma RotationAlone(ttl: nat, s: S.State, id: nat, token: Token, unused: Token, newToken: Token)
    requires S.Inv(s) && id in s.calls && s.calls[id] == S.Call(S.Refresh(token), S.Begin)
    requires IsLive(s.keys, s.now, token)
    requires unused !in s.generated && newToken !in s.generated && unused != newToken
    ensures var s' := S.Do(ttl, S.Do(ttl, s, S.Advance(id, unused, S.Works)), S.Advance(id, newToken, S.Works));
            && s'.keys == Save(s.keys - {token}, s.now, s.keys[token].user, newToken, ttl)
            && s'.calls[id].stage == S.Finished(Ok(Some(newToken)))
            && s'.origins[newToken].lineage == s.origins[token].lineage
  {
    var s1 := S.Do(ttl, s, S.Advance(id, unused, S.Works));
    assert s1.calls[id].stage == S.Minting(s.keys[token].user, s.origins[token].lineage);
  }
}
