/** The Twitch credential cache, get_twitch_token (app.py:18-47). Without
    client credentials the placeholder token is used. Otherwise a cached
    "token|expiry" text is reused while the expiry lies ahead; failing that,
    the client-credentials exchange is made, and on success its token is
    cached with its expiry and returned. The cache file is the slot of a
    CredentialStore; clock readings are whole seconds, and the expiry is
    written as a decimal number of seconds. */
module TokenCache {
  import opened Py

  /** The token returned when there are no credentials or the exchange
      answers with an error status, and the default for a missing
      access_token. */
  const DummyToken: string := "dummy_token"

  /** The lifetime assumed when the exchange gives no expires_in. */
  const DefaultExpiresIn: int := 3600

  /** The JSON object of a successful exchange: access_token and
      expires_in, each possibly absent. */
  datatype TokenBody = TokenBody(accessToken: Option<string>, expiresIn: Option<int>)

  /** The POST to the token endpoint: it raises, or answers with a status and
      a body that is JSON (Some) or not (None, where resp.json() raises). */
  datatype Exchange = ExchangeRaised | ExchangeReply(status: int, body: Option<TokenBody>)

  /** The outcome of get_twitch_token: a token, or an exception the function
      does not catch (from the POST or from resp.json()). */
  datatype TokenResult = Token(value: string) | Raised

  /** The text written to the cache: f"{token}|{expiry}". */
  function Serialize(token: string, expiry: int): string {
    token + "|" + IntToString(expiry)
  }

  /** The cache check: the stripped text split on '|' must give exactly two
      fields whose second is an expiry later than now; an unreadable expiry
      is swallowed by the bare except and counts as a miss. */
  function CachedToken(slot: Option<string>, now: int): Option<string> {
    match slot
    case None => None
    case Some(text) =>
      var fields := Split(Strip(text), '|');
      if |fields| == 2 then
        match ParseInt(fields[1])
        case None => None
        case Some(expiry) => if now < expiry then Some(fields[0]) else None
      else None
  }

  /** data.get(key, default). */
  function OrElse<T>(o: Option<T>, default: T): T {
    match o
    case None => default
    case Some(v) => v
  }

  /** The token a successful exchange gives. */
  function TokenOf(body: TokenBody): string {
    OrElse(body.accessToken, DummyToken)
  }

  /** The lifetime a successful exchange gives, in seconds. */
  function LifetimeOf(body: TokenBody): int {
    OrElse(body.expiresIn, DefaultExpiresIn)
  }

  /** get_twitch_token as a function of the cache content, the presence of
      the credentials, the clock and the exchange: the result and the new
      cache content. */
  function Acquire(slot: Option<string>, hasCredentials: bool, now: int, exchange: Exchange): (TokenResult, Option<string>) {
    if !hasCredentials then (Token(DummyToken), slot)
    else match CachedToken(slot, now)
      case Some(token) => (Token(token), slot)
      case None =>
        match exchange
        case ExchangeRaised => (Raised, slot)
        case ExchangeReply(status, body) =>
          if status != 200 then (Token(DummyToken), slot)
          else match body
            case None => (Raised, slot)
            case Some(b) => (Token(TokenOf(b)), Some(Serialize(TokenOf(b), now + LifetimeOf(b))))
  }

  /** The cache file, as a store whose slot the call reads and rewrites. */
  class CredentialStore {
    /** The content of twitch_token.txt; None when the file does not exist. */
    var slot: Option<string>

    constructor(initial: Option<string>)
      ensures slot == initial
    {
      slot := initial;
    }

    /** One call of get_twitch_token. */
    method GetToken(hasCredentials: bool, now: int, exchange: Exchange) returns (r: TokenResult)
      modifies this
      ensures (r, slot) == Acquire(old(slot), hasCredentials, now, exchange)
    {
      if !hasCredentials {
        return Token(DummyToken);
      }
      if slot.Some? {
        var fields := Split(Strip(slot.value), '|');
        if |fields| == 2 {
          var expiry := ParseInt(fields[1]);
          if expiry.Some? && now < expiry.value {
            return Token(fields[0]);
          }
        }
      }
      if exchange.ExchangeRaised? || (exchange.status == 200 && exchange.body.None?) {
        return Raised;
      }
      if exchange.status != 200 {
        return Token(DummyToken);
      }
      var data := exchange.body.value;
      var token := if data.accessToken.Some? then data.accessToken.value else DummyToken;
      var expiresIn := if data.expiresIn.Some? then data.expiresIn.value else DefaultExpiresIn;
      slot := Some(token + "|" + IntToString(now + expiresIn));
      return Token(token);
    }
  }

  // ---------------------------------------------------------------------
  // What the cache promises
  // ---------------------------------------------------------------------

  /** A token the cache can hold: no '|' inside, no leading whitespace. */
  predicate Cacheable(token: string) {
    '|' !in token && (token == [] || !IsSpace(token[0]))
  }

  /** What is written is read back: a cacheable token hits exactly while
      the clock is before its expiry. */
  lemma CacheRoundTrip(token: string, expiry: int, now: int)
    requires Cacheable(token)
    ensures CachedToken(Some(Serialize(token, expiry)), now) == if now < expiry then Some(token) else None
  {
    var d := IntToString(expiry);
    var text := Serialize(token, expiry);
    assert text == token + ['|'] + d;
    assert d[0] == '-' || IsDigit(d[0]);
    assert IsDigit(d[|d| - 1]);
    assert text[|text| - 1] == d[|d| - 1];
    DigitIsNotSpace(d[|d| - 1]);
    StripUnchanged(text);
    assert '|' !in d;
    SplitAround(token, d, '|');
    SplitNoSeparator(token, '|');
    SplitNoSeparator(d, '|');
    ParseIntOfIntToString(expiry);
  }

  /** A token with '|' in it is never read back: every later call makes a
      fresh exchange. strip() removes at most the leading whitespace before
      the first '|', so the stripped text still splits into three or more
      fields. */
  lemma PipeTokenNeverHits(token: string, expiry: int, now: int)
    requires '|' in token
    ensures CachedToken(Some(Serialize(token, expiry)), now) == None
  {
    var d := IntToString(expiry);
    var text := Serialize(token, expiry);
    assert text == token + ['|'] + d;
    var p :| 0 <= p < |token| && token[p] == '|';
    StripLeftKeepsSuffix(text);
    var left := StripLeft(text);
    var k := |text| - |left|;
    assert !IsSpace(text[p]);
    assert k <= p;
    assert left == token[k..] + ['|'] + d;
    assert token[k..][p - k] == '|';
    assert IsDigit(d[|d| - 1]);
    assert left[|left| - 1] == d[|d| - 1];
    DigitIsNotSpace(d[|d| - 1]);
    assert StripRight(left) == left;
    SplitAround(token[k..], d, '|');
    SplitAtSeparator(token[k..], '|');
  }

  /** Without credentials the placeholder is returned and the cache is
      neither read nor written. */
  lemma NoCredentialsGiveDummy(slot: Option<string>, now: int, exchange: Exchange)
    ensures Acquire(slot, false, now, exchange) == (Token(DummyToken), slot)
  {
  }

  /** A valid cached token is returned as it is, whatever the exchange would
      have answered, and the cache is left alone. */
  lemma CacheHitSkipsExchange(slot: Option<string>, now: int, exchange: Exchange)
    requires CachedToken(slot, now).Some?
    ensures Acquire(slot, true, now, exchange) == (Token(CachedToken(slot, now).value), slot)
  {
  }

  /** On a miss, an error status gives the placeholder and leaves the cache
      alone, and an exchange that raises, or answers 200 with a body that is
      not JSON, propagates. */
  lemma MissOutcomes(slot: Option<string>, now: int, exchange: Exchange)
    requires CachedToken(slot, now).None?
    ensures exchange.ExchangeReply? && exchange.status != 200 ==> Acquire(slot, true, now, exchange) == (Token(DummyToken), slot)
    ensures exchange.ExchangeRaised? ==> Acquire(slot, true, now, exchange) == (Raised, slot)
    ensures exchange == ExchangeReply(200, None) ==> Acquire(slot, true, now, exchange) == (Raised, slot)
  {
  }

  /** On a miss, a successful exchange returns its token and caches it with
      the expiry now + expires_in, defaulting to "dummy_token" and 3600
      seconds. */
  lemma FreshTokenCached(slot: Option<string>, now: int, body: TokenBody)
    requires CachedToken(slot, now).None?
    ensures var token := if body.accessToken.Some? then body.accessToken.value else "dummy_token";
            var lifetime := if body.expiresIn.Some? then body.expiresIn.value else 3600;
            Acquire(slot, true, now, ExchangeReply(200, Some(body))) == (Token(token), Some(Serialize(token, now + lifetime)))
  {
  }

  /** Caching works: after a successful exchange for a cacheable token, a
      call before the expiry returns the same token without an exchange and
      without rewriting the cache, and a call at or after the expiry misses. */
  lemma SecondCallHits(slot: Option<string>, now: int, body: TokenBody, later: int, exchange: Exchange)
    requires CachedToken(slot, now).None?
    requires Cacheable(TokenOf(body))
    ensures var first := Acquire(slot, true, now, ExchangeReply(200, Some(body)));
            && (later < now + LifetimeOf(body) ==> Acquire(first.1, true, later, exchange) == first)
            && (later >= now + LifetimeOf(body) ==> CachedToken(first.1, later).None?)
  {
    var token, expiry := TokenOf(body), now + LifetimeOf(body);
    var cache := Some(Serialize(token, expiry));
    assert Acquire(slot, true, now, ExchangeReply(200, Some(body))) == (Token(token), cache);
    CacheRoundTrip(token, expiry, later);
    if later < expiry {
      CacheHitSkipsExchange(cache, later, exchange);
    }
  }
}
