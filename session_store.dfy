/** The token-session store of the "guess the number" service.

    The service keeps one dictionary that maps a token to the pair
    (secret, expiry time).  `/init` purges expired sessions and binds a
    fresh token to a random secret; `/try` purges, then looks the token up,
    expires it lazily if its time is up, and otherwise compares the guess
    with the secret, consuming the token when the guess is right.

    Time is integer ticks (seconds).  Each endpoint reads the clock twice:
    once inside the purge (`now1`) and once afterwards (`now2`).  The uuid
    token and the random secret are parameters.
 */
module SessionStore {

  /** Seconds a fresh token stays valid. */
  const TokenTtlSeconds: int := 60

  /** Largest secret (and largest accepted guess): 2^31 - 1. */
  const MaxSecret: int := 2147483647

  type Token = string

  /** One session: the number to guess and the instant it stops being valid. */
  datatype Entry = Entry(secret: int, expiresAt: int)

  /** What a guess yields; `UnknownOrExpiredToken` is the 404 answer, shared by
      tokens that never existed, expired ones and consumed ones. */
  datatype Outcome = TooSmall | TooBig | Found | UnknownOrExpiredToken

  /** What `/init` reports back: the quad code, the token and its validity. */
  datatype InitReply = InitReply(quad: string, token: Token, validForSeconds: int)

  /** The outcome of a guess together with the store it leaves behind. */
  datatype GuessResult = GuessResult(outcome: Outcome, store: map<Token, Entry>)

  /** A secret `random.randint(1, 2**31 - 1)` can draw. */
  predicate InSecretRange(x: int) {
    1 <= x <= MaxSecret
  }

  /** The shape `^[A-Z]{2,4}$` the framework checks before `/init` runs. */
  predicate IsQuad(s: string) {
    2 <= |s| <= 4 && forall i :: 0 <= i < |s| ==> 'A' <= s[i] <= 'Z'
  }

  /** Every secret in the store is one the random source can draw. */
  predicate SecretsInRange(m: map<Token, Entry>) {
    forall t :: t in m ==> InSecretRange(m[t].secret)
  }

  /** The store after `_purge_expired` at instant `now`: exactly the entries
      whose expiry lies strictly after `now` remain, each unchanged. */
  function Purged(m: map<Token, Entry>, now: int): (r: map<Token, Entry>)
    ensures forall t :: t in r <==> t in m && now < m[t].expiresAt
    ensures forall t :: t in r ==> r[t] == m[t]
  {
    map t | t in m && now < m[t].expiresAt :: m[t]
  }

  /** The three-way comparison of a guess with the secret. */
  function Compare(guess: int, secret: int): (o: Outcome)
    ensures o == TooSmall <==> guess < secret
    ensures o == TooBig <==> guess > secret
    ensures o == Found <==> guess == secret
    ensures o != UnknownOrExpiredToken
  {
    if guess < secret then TooSmall
    else if guess > secret then TooBig
    else Found
  }

  /** A token is live for a guess when it is in the store and its expiry lies
      after both clock readings of that request. */
  predicate LiveAt(m: map<Token, Entry>, token: Token, now1: int, now2: int) {
    token in m && now1 < m[token].expiresAt && now2 < m[token].expiresAt
  }

  /** The store after `/init` binds `token` to `secret`: purge at `now1`, then
      insert with expiry `now2 + TokenTtlSeconds`, overwriting an equal token. */
  function InitSpec(m: map<Token, Entry>, token: Token, secret: int, now1: int, now2: int): (r: map<Token, Entry>)
    ensures token in r && r[token] == Entry(secret, now2 + TokenTtlSeconds)
    ensures forall t :: t != token ==> (t in r <==> t in m && now1 < m[t].expiresAt)
    ensures forall t :: t != token && t in r ==> r[t] == m[t]
    ensures r.Keys == Purged(m, now1).Keys + {token}
  {
    Purged(m, now1)[token := Entry(secret, now2 + TokenTtlSeconds)]
  }

  /** The outcome and resulting store of `/try` with `token` and `guess`. */
  function GuessSpec(m: map<Token, Entry>, token: Token, guess: int, now1: int, now2: int): (r: GuessResult)
    ensures r.outcome == UnknownOrExpiredToken <==> !LiveAt(m, token, now1, now2)
    ensures r.outcome == TooSmall <==> LiveAt(m, token, now1, now2) && guess < m[token].secret
    ensures r.outcome == TooBig <==> LiveAt(m, token, now1, now2) && guess > m[token].secret
    ensures r.outcome == Found <==> LiveAt(m, token, now1, now2) && guess == m[token].secret
    ensures token in r.store <==> LiveAt(m, token, now1, now2) && guess != m[token].secret
    ensures forall t :: t != token ==> (t in r.store <==> t in m && now1 < m[t].expiresAt)
    ensures forall t :: t in r.store ==> t in m && r.store[t] == m[t]
  {
    var p := Purged(m, now1);
    if token !in p then
      GuessResult(UnknownOrExpiredToken, p)
    else if p[token].expiresAt <= now2 then
      GuessResult(UnknownOrExpiredToken, p - {token})
    else
      var o := Compare(guess, p[token].secret);
      GuessResult(o, if o == Found then p - {token} else p)
  }

  /** The process-wide store `TOKENS`, as an object whose one field the
      endpoints update in place. */
  class Store {
    var tokens: map<Token, Entry>

    /** Every stored secret came from the random source's range. */
    ghost predicate Valid()
      reads this
    {
      SecretsInRange(tokens)
    }

    /** The store at process start: empty. */
    constructor ()
      ensures Valid() && tokens == map[]
    {
      tokens := map[];
    }

    /** `_purge_expired`: collect the expired tokens, then pop them one by one. */
    method Purge(now: int)
      requires Valid()
      modifies this
      ensures Valid()
      ensures tokens == Purged(old(tokens), now)
    {
      var expired := set t | t in tokens && tokens[t].expiresAt <= now;
      var pending := expired;
      while pending != {}
        invariant pending <= expired
        invariant tokens == old(tokens) - (expired - pending)
        invariant Valid()
        decreases pending
      {
        var t :| t in pending;
        tokens := tokens - {t};
        pending := pending - {t};
      }
      assert tokens.Keys == Purged(old(tokens), now).Keys;
    }

    /** `/init`: purge at `now1`, then bind `token` to `secret` until
        `now2 + TokenTtlSeconds`. */
    method Init(quad: string, token: Token, secret: int, now1: int, now2: int) returns (reply: InitReply)
      requires Valid()
      requires IsQuad(quad)
      requires InSecretRange(secret)
      modifies this
      ensures Valid()
      ensures tokens == InitSpec(old(tokens), token, secret, now1, now2)
      ensures reply == InitReply(quad, token, TokenTtlSeconds)
    {
      Purge(now1);
      var expiresAt := now2 + TokenTtlSeconds;
      tokens := tokens[token := Entry(secret, expiresAt)];
      reply := InitReply(quad, token, TokenTtlSeconds);
    }

    /** `/try`: purge at `now1`, answer 404 for an absent token, expire a token
        whose time is up at `now2`, otherwise compare and consume on success. */
    method TryGuess(token: Token, guess: int, now1: int, now2: int) returns (outcome: Outcome)
      requires Valid()
      requires InSecretRange(guess)
      modifies this
      ensures Valid()
      ensures GuessResult(outcome, tokens) == GuessSpec(old(tokens), token, guess, now1, now2)
    {
      Purge(now1);
      if token !in tokens {
        return UnknownOrExpiredToken;
      }
      var entry := tokens[token];
      if entry.expiresAt <= now2 {
        tokens := tokens - {token};
        return UnknownOrExpiredToken;
      }
      if guess < entry.secret {
        return TooSmall;
      }
      if guess > entry.secret {
        return TooBig;
      }
      tokens := tokens - {token};
      return Found;
    }
  }
}
