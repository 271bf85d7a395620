/** The JWT revocation blacklist of the business backend
    (`pkg/jwt/blacklist.go`): revoked tokens mapped to the time the token
    itself expires. Time is an integer number of seconds passed in as `now`. */
module Blacklist {

  type Tokens = map<string, int>

  /** `IsRevoked` on a given table: only a token still in the table whose
      expiry is strictly after now reads as revoked. */
  function Revoked(tokens: Tokens, token: string, now: int): (r: bool)
    ensures token !in tokens ==> !r
    ensures r <==> token in tokens && tokens[token] > now
  {
    token in tokens && tokens[token] > now
  }

  /** One pass of the cleanup goroutine: `expiresAt.Before(now)` entries go,
      so an entry expiring exactly at `now` stays. */
  function Sweep(tokens: Tokens, now: int): (r: Tokens)
    ensures forall t :: t in tokens ==> (t in r <==> tokens[t] >= now)
    ensures forall t :: t in r ==> t in tokens && r[t] == tokens[t]
  {
    map t | t in tokens && !(tokens[t] < now) :: tokens[t]
  }

  /** Revoking one token leaves the status of every other token unchanged. */
  lemma RevokeIsLocal(tokens: Tokens, token: string, expiresAt: int, other: string, now: int)
    requires other != token
    ensures Revoked(tokens[token := expiresAt], other, now) == Revoked(tokens, other, now)
  {
  }

  /** A revoked token stays revoked until its own expiry and no longer. */
  lemma RevokedUntilExpiry(tokens: Tokens, token: string, expiresAt: int, now: int)
    ensures Revoked(tokens[token := expiresAt], token, now) <==> now < expiresAt
  {
  }

  /** The sweep never changes an `IsRevoked` answer at the sweep time or
      later: it only drops entries that already read as not revoked. */
  lemma SweepUnobservable(tokens: Tokens, token: string, now: int, at: int)
    requires now <= at
    ensures Revoked(Sweep(tokens, now), token, at) == Revoked(tokens, token, at)
  {
  }

  class TokenBlacklist {
    var tokens: Tokens

    constructor ()
      ensures tokens == map[]
    {
      tokens := map[];
    }

    /** `RevokeToken`: records the token with its expiry, overwriting any
        earlier expiry for it. */
    method RevokeToken(token: string, expiresAt: int)
      modifies this
      ensures tokens == old(tokens)[token := expiresAt]
    {
      tokens := tokens[token := expiresAt];
    }

    /** `IsRevoked`. */
    function IsRevoked(token: string, now: int): (r: bool)
      reads this
      ensures r == Revoked(tokens, token, now)
    {
      if token !in tokens then false else tokens[token] > now
    }

    /** The body of `cleanupExpiredTokens` for one tick. */
    method SweepExpired(now: int)
      modifies this
      ensures tokens == Sweep(old(tokens), now)
    {
      var pending := tokens.Keys;
      while pending != {}
        invariant pending <= tokens.Keys <= old(tokens).Keys
        invariant forall t :: t in tokens ==> tokens[t] == old(tokens)[t]
        invariant forall t :: t in old(tokens) && t !in pending ==> (t in tokens <==> old(tokens)[t] >= now)
        invariant forall t :: t in old(tokens) && t in pending ==> t in tokens
        decreases pending
      {
        var t :| t in pending;
        if tokens[t] < now {
          tokens := tokens - {t};
        }
        pending := pending - {t};
      }
    }
  }
}
