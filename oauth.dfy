/**
 * `get_access_token` (zoom_api_helper/oauth.py): serve the cached token of a
 * Server-to-Server OAuth app while it is unexpired, else exchange the account
 * credentials for a new one and cache it, five minutes early.  The cache
 * directory is a map from file name to the JSON object stored there; the
 * clock is an integer `now`; the token endpoint is a parameter.
 */
module OAuth {
  import opened Wrappers

  const GrantType := "account_credentials"

  /** Seconds subtracted from the reported lifetime: `5 * 60`. */
  const ExpiryMargin := 5 * 60

  /** `{'access_token': ..., 'expires_at': ...}` in a cache file. */
  datatype CacheEntry = CacheEntry(accessToken: string, expiresAt: int)

  /** POST https://zoom.us/oauth/token with basic auth and these query parameters. */
  datatype ExchangeRequest = ExchangeRequest(grantType: string, accountId: string, clientId: string, clientSecret: string)

  /** The reply of the token endpoint: a token and its lifetime in seconds, or a non-2xx status. */
  datatype ExchangeReply = Granted(accessToken: string, expiresIn: int) | Refused(status: int)

  type Exchange = ExchangeRequest -> ExchangeReply

  /** `raise_for_status` on the token request. */
  datatype AuthError = AuthError(status: int)

  /** `token_{account_id}_{client_id}.json` */
  function CacheFile(accountId: string, clientId: string): (f: string)
    ensures |f| == |accountId| + |clientId| + 12
    ensures f[..6] == "token_" && f[|f| - 5..] == ".json"
    ensures f[6..6 + |accountId|] == accountId && f[6 + |accountId|] == '_'
    ensures f[7 + |accountId|..|f| - 5] == clientId
  {
    "token_" + accountId + "_" + clientId + ".json"
  }

  /** Result of one call: the token or the error, the exchange made if any, the cache afterwards. */
  datatype TokenOutcome = TokenOutcome(token: Result<string, AuthError>, exchanged: Option<ExchangeRequest>,
                                       cache: map<string, CacheEntry>)

  /** A cached entry for the key that has not expired at `now`. */
  predicate Fresh(cache: map<string, CacheEntry>, key: string, now: int) {
    key in cache && cache[key].expiresAt > now
  }

  /** The effect of `get_access_token` at time `now` on cache `cache`. */
  function AccessToken(cache: map<string, CacheEntry>, accountId: string, clientId: string, clientSecret: string,
                       now: int, exchange: Exchange): (o: TokenOutcome)
    // a fresh cached token is served and nothing else happens
    ensures Fresh(cache, CacheFile(accountId, clientId), now) ==>
              o == TokenOutcome(Ok(cache[CacheFile(accountId, clientId)].accessToken), None, cache)
    // otherwise exactly one exchange, with the account-credentials grant for this account
    ensures !Fresh(cache, CacheFile(accountId, clientId), now) ==>
              o.exchanged == Some(ExchangeRequest(GrantType, accountId, clientId, clientSecret))
    // a refused exchange raises before the cache is written
    ensures o.exchanged.Some? && exchange(o.exchanged.value).Refused? ==>
              o.token == Err(AuthError(exchange(o.exchanged.value).status)) && o.cache == cache
    // a granted one is stored, expiring five minutes early, under this key only, and returned
    ensures o.exchanged.Some? && exchange(o.exchanged.value).Granted? ==>
              var g := exchange(o.exchanged.value);
              && o.token == Ok(g.accessToken)
              && o.cache == cache[CacheFile(accountId, clientId) := CacheEntry(g.accessToken, now + g.expiresIn - 300)]
  {
    var key := CacheFile(accountId, clientId);
    if Fresh(cache, key, now) then TokenOutcome(Ok(cache[key].accessToken), None, cache)
    else
      var request := ExchangeRequest(GrantType, accountId, clientId, clientSecret);
      match exchange(request)
      case Refused(status) => TokenOutcome(Err(AuthError(status)), Some(request), cache)
      case Granted(token, expiresIn) =>
        TokenOutcome(Ok(token), Some(request), cache[key := CacheEntry(token, now + expiresIn - ExpiryMargin)])
  }

  /** Entries of other cache files are never read into the result nor changed. */
  lemma OtherEntriesUnchanged(cache: map<string, CacheEntry>, accountId: string, clientId: string, clientSecret: string,
                              now: int, exchange: Exchange, other: string)
    requires other != CacheFile(accountId, clientId)
    ensures var o := AccessToken(cache, accountId, clientId, clientSecret, now, exchange);
            (other in o.cache <==> other in cache) && (other in cache ==> o.cache[other] == cache[other])
  {
  }

  /**
   * A token fetched at `t1` with a lifetime over five minutes plus the time
   * until `t2` is served from the cache at `t2`: of the two calls only the
   * first makes an exchange, and both return the same token.
   */
  lemma SecondCallServedFromCache(cache: map<string, CacheEntry>, accountId: string, clientId: string,
                                  clientSecret: string, t1: int, t2: int, exchange: Exchange)
    requires t1 <= t2
    requires !Fresh(cache, CacheFile(accountId, clientId), t1)
    requires var g := exchange(ExchangeRequest(GrantType, accountId, clientId, clientSecret));
             g.Granted? && g.expiresIn > ExpiryMargin + (t2 - t1)
    ensures var o1 := AccessToken(cache, accountId, clientId, clientSecret, t1, exchange);
            var o2 := AccessToken(o1.cache, accountId, clientId, clientSecret, t2, exchange);
            && o1.exchanged.Some? && o2.exchanged.None?
            && o1.token.Ok? && o2.token == o1.token
            && o2.cache == o1.cache
  {
  }

  /**
   * A freshly granted token is cached as unexpired only when its lifetime
   * exceeds the five-minute margin; a shorter one is returned but already
   * stale in the cache, so the next call exchanges again.
   */
  lemma GrantedEntryFreshIff(cache: map<string, CacheEntry>, accountId: string, clientId: string,
                             clientSecret: string, now: int, exchange: Exchange)
    requires !Fresh(cache, CacheFile(accountId, clientId), now)
    requires exchange(ExchangeRequest(GrantType, accountId, clientId, clientSecret)).Granted?
    ensures var o := AccessToken(cache, accountId, clientId, clientSecret, now, exchange);
            Fresh(o.cache, CacheFile(accountId, clientId), now)
            <==> exchange(ExchangeRequest(GrantType, accountId, clientId, clientSecret)).expiresIn > ExpiryMargin
  {
  }

  /**
   * The cache is keyed by file name, and the name joins the two ids with `_`:
   * two different credential pairs can share one cache entry.
   */
  lemma CacheFileShared()
    ensures CacheFile("a_b", "c") == CacheFile("a", "b_c")
  {
  }

  /** The persistent token cache (`CACHE_DIR`), one entry per file name. */
  class TokenCache {
    var files: map<string, CacheEntry>

    constructor(files: map<string, CacheEntry>)
      ensures this.files == files
    {
      this.files := files;
    }

    /** Lines 32-62: check the cache, else exchange and store. */
    method GetAccessToken(accountId: string, clientId: string, clientSecret: string, now: int, exchange: Exchange)
      returns (token: Result<string, AuthError>, exchanged: Option<ExchangeRequest>)
      modifies this
      ensures var o := AccessToken(old(files), accountId, clientId, clientSecret, now, exchange);
              token == o.token && exchanged == o.exchanged && files == o.cache
    {
      var filename := CacheFile(accountId, clientId);
      if filename in files && files[filename].expiresAt > now {
        return Ok(files[filename].accessToken), None;
      }
      var request := ExchangeRequest(GrantType, accountId, clientId, clientSecret);
      exchanged := Some(request);
      var reply := exchange(request);
      if reply.Refused? {
        return Err(AuthError(reply.status)), exchanged;
      }
      var expiresAt := now + reply.expiresIn - ExpiryMargin;
      files := files[filename := CacheEntry(reply.accessToken, expiresAt)];
      token := Ok(reply.accessToken);
    }
  }
}
