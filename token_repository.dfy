/**
  The in-memory token blacklist (backend/internal/repository/memory_token_repository.go):
  a map from token to expiry instant. The clock is a parameter: `now` and expiries are
  instants on one integer time line.
*/
module TokenRepository {

  /** A token is reported blacklisted when it is present and the clock is strictly before its expiry. */
  predicate Blacklisted(list: map<string, int>, token: string, now: int) {
    token in list && now < list[token]
  }

  /** The map after a query: an entry strictly past its expiry is removed, anything else is kept. */
  function AfterQuery(list: map<string, int>, token: string, now: int): (after: map<string, int>)
    ensures token in after <==> token in list && now <= list[token]
    ensures forall t :: t != token ==> (t in after <==> t in list)
    ensures forall t :: t in after ==> t in list && after[t] == list[t]
  {
    if token in list && now > list[token] then list - {token} else list
  }

  /** Blacklisting a token makes every query before its expiry answer true. */
  lemma BlacklistedUntilExpiry(list: map<string, int>, token: string, expiresAt: int, now: int)
    requires now < expiresAt
    ensures Blacklisted(list[token := expiresAt], token, now)
  {
  }

  /** Blacklisting again replaces the expiry: the earlier one no longer matters. */
  lemma BlacklistOverwrites(list: map<string, int>, token: string, e1: int, e2: int, now: int)
    ensures Blacklisted(list[token := e1][token := e2], token, now) <==> now < e2
  {
  }

  /** A query at exactly the expiry instant answers false and keeps the entry. */
  lemma QueryAtExpiry(list: map<string, int>, token: string)
    requires token in list
    ensures !Blacklisted(list, token, list[token])
    ensures AfterQuery(list, token, list[token]) == list
  {
  }

  class MemoryTokenBlacklist {
    var list: map<string, int>

    /** NewMemoryTokenBlacklist: an empty blacklist. */
    constructor ()
      ensures list == map[]
    {
      list := map[];
    }

    /** BlacklistToken: records (or replaces) the token's expiry; other entries stay. */
    method BlacklistToken(token: string, expiresAt: int)
      modifies this
      ensures list == old(list)[token := expiresAt]
      ensures Blacklisted(list, token, expiresAt - 1)
    {
      list := list[token := expiresAt];
    }

    /**
      IsTokenBlacklisted: true exactly when the token is present and `now` is before its
      expiry; an entry whose expiry is strictly before `now` is deleted on the way.
    */
    method IsTokenBlacklisted(token: string, now: int) returns (b: bool)
      modifies this
      ensures b == Blacklisted(old(list), token, now)
      ensures token !in old(list) ==> !b
      ensures list == AfterQuery(old(list), token, now)
      ensures forall t :: t != token ==> (t in list <==> t in old(list)) && (t in list ==> list[t] == old(list)[t])
    {
      if token in list && now < list[token] {
        return true;
      }
      if token in list && now > list[token] {
        list := list - {token};
      }
      return false;
    }
  }
}
