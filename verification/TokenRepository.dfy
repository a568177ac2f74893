/** Refresh tokens in Valkey: keys that expire, each holding a user id. */
module TokenRepository {
  import opened Wrappers

  type Token = nat
  type UserId = nat

  datatype Entry = Entry(user: UserId, deadline: nat)

  type Keys = map<Token, Entry>

  predicate IsLive(keys: Keys, now: nat, token: Token) {
    token in keys && now < keys[token].deadline
  }

  /** SET with an expiry. */
  function Save(keys: Keys, now: nat, user: UserId, token: Token, ttl: nat): Keys {
    keys[token := Entry(user, now + ttl)]
  }

  function Lookup(keys: Keys, now: nat, token: Token): Option<UserId> {
    if IsLive(keys, now, token) then Some(keys[token].user) else None
  }

  datatype Error = TokenNotFound

  class Repository {
    var keys: Keys

    constructor ()
      ensures keys == map[]
    {
      keys := map[];
    }

    method SaveRefreshToken(now: nat, user: UserId, token: Token, ttl: nat)
      modifies this
      ensures keys == Save(old(keys), now, user, token, ttl)
    {
      keys := keys[token := Entry(user, now + ttl)];
    }

    method GetUserIDByRefreshToken(now: nat, token: Token) returns (r: Result<UserId, Error>)
      ensures r == match Lookup(keys, now, token) case Some(user) => Ok(user) case None => Err(TokenNotFound)
    {
      if token in keys && now < keys[token].deadline {
        return Ok(keys[token].user);
      }
      return Err(TokenNotFound);
    }

    method DeleteRefreshToken(token: Token)
      modifies this
      ensures keys == old(keys) - {token}
    {
      keys := keys - {token};
    }

    /** The script reads the key and deletes it if it was there, as one command. */
    method ReviveRefreshToken(now: nat, token: Token) returns (r: Result<UserId, Error>)
      modifies this
      ensures match Lookup(old(keys), now, token)
              case Some(user) => r == Ok(user) && keys == old(keys) - {token}
              case None => r == Err(TokenNotFound) && keys == old(keys)
    {
      r := GetUserIDByRefreshToken(now, token);
      if r.Ok? {
        DeleteRefreshToken(token);
      }
    }
  }
}
