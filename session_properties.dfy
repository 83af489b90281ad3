/** Properties of one purge, one `/init` and one `/try`, stated on the
    specification functions that the `Store` methods are proved against. */
module SessionProperties {
  import opened SessionStore

  /** Purging twice is purging once at the later instant; in particular a
      second purge at the same instant changes nothing. */
  lemma PurgeComposes(m: map<Token, Entry>, earlier: int, later: int)
    requires earlier <= later
    ensures Purged(Purged(m, earlier), later) == Purged(m, later)
  {
  }

  /** The purge only removes: what stays is a sub-map of what was there. */
  lemma PurgeShrinks(m: map<Token, Entry>, now: int)
    ensures Purged(m, now).Keys <= m.Keys
    ensures |Purged(m, now)| <= |m|
  {
    var p := Purged(m, now);
    assert p.Keys <= m.Keys;
    SubsetCard(p.Keys, m.Keys);
  }

  lemma {:induction false} SubsetCard(a: set<Token>, b: set<Token>)
    requires a <= b
    ensures |a| <= |b|
  {
    if a != {} {
      var x :| x in a;
      SubsetCard(a - {x}, b - {x});
    }
  }

  /** A token that is not there after the purge gets the 404 answer, and the
      store is left as the purge made it. */
  lemma UnknownTokenLeavesStore(m: map<Token, Entry>, token: Token, guess: int, now1: int, now2: int)
    requires token !in Purged(m, now1)
    ensures GuessSpec(m, token, guess, now1, now2) == GuessResult(UnknownOrExpiredToken, Purged(m, now1))
  {
  }

  /** Lazy expiry: a token that survives the purge but whose expiry is reached
      at the second clock reading is removed, with the 404 answer. */
  lemma LazyExpiryRemovesToken(m: map<Token, Entry>, token: Token, guess: int, now1: int, now2: int)
    requires token in m && now1 < m[token].expiresAt <= now2
    ensures GuessSpec(m, token, guess, now1, now2) == GuessResult(UnknownOrExpiredToken, Purged(m, now1) - {token})
  {
  }

  /** The lazy-expiry branch is reachable with a non-decreasing clock: an entry
      expiring at tick 10 survives a purge at tick 9 and is expired at tick 10. */
  lemma LazyExpiryReachable()
    ensures "t" in Purged(map["t" := Entry(7, 10)], 9)
    ensures GuessSpec(map["t" := Entry(7, 10)], "t", 7, 9, 10) == GuessResult(UnknownOrExpiredToken, map[])
  {
  }

  /** A wrong guess (too small or too big) leaves the store exactly as the
      purge left it. */
  lemma WrongGuessKeepsPurgedStore(m: map<Token, Entry>, token: Token, guess: int, now1: int, now2: int)
    requires GuessSpec(m, token, guess, now1, now2).outcome in {TooSmall, TooBig}
    ensures GuessSpec(m, token, guess, now1, now2).store == Purged(m, now1)
  {
  }

  /** Repeating a wrong guess with the same clock readings gives the same
      answer and the same store: wrong guesses are idempotent. */
  lemma WrongGuessIdempotent(m: map<Token, Entry>, token: Token, guess: int, now1: int, now2: int)
    requires GuessSpec(m, token, guess, now1, now2).outcome in {TooSmall, TooBig}
    ensures var r := GuessSpec(m, token, guess, now1, now2);
            GuessSpec(r.store, token, guess, now1, now2) == r
  {
  }

  /** A wrong guess cannot be observed by any later request: every later
      `/try` (its purge not earlier than this one's) sees the same outcome and
      leaves the same store as if the wrong guess had never been made. */
  lemma WrongGuessUnobservable(m: map<Token, Entry>, token: Token, guess: int, now1: int, now2: int,
                               token': Token, guess': int, later1: int, later2: int)
    requires GuessSpec(m, token, guess, now1, now2).outcome in {TooSmall, TooBig}
    requires now1 <= later1
    ensures GuessSpec(GuessSpec(m, token, guess, now1, now2).store, token', guess', later1, later2)
            == GuessSpec(m, token', guess', later1, later2)
  {
  }

  /** A correct guess consumes the token: it is gone from the store, and every
      later `/try` with that token, whatever the guess and the clock, answers
      404 and changes nothing beyond its own purge. */
  lemma FoundConsumesToken(m: map<Token, Entry>, token: Token, guess: int, now1: int, now2: int,
                           guess': int, later1: int, later2: int)
    requires GuessSpec(m, token, guess, now1, now2).outcome == Found
    ensures token !in GuessSpec(m, token, guess, now1, now2).store
    ensures var s := GuessSpec(m, token, guess, now1, now2).store;
            GuessSpec(s, token, guess', later1, later2) == GuessResult(UnknownOrExpiredToken, Purged(s, later1))
  {
  }

  /** A correct guess removes only its own token beyond the purge. */
  lemma FoundRemovesOnlyToken(m: map<Token, Entry>, token: Token, guess: int, now1: int, now2: int)
    requires GuessSpec(m, token, guess, now1, now2).outcome == Found
    ensures GuessSpec(m, token, guess, now1, now2).store == Purged(m, now1) - {token}
  {
  }

  /** A token just issued answers guesses by comparison with its secret while
      both clock readings of the `/try` are before its expiry, and with 404
      from its expiry on. */
  lemma IssuedTokenAnswers(m: map<Token, Entry>, token: Token, secret: int, now1: int, now2: int,
                           guess: int, later1: int, later2: int)
    ensures var s := InitSpec(m, token, secret, now1, now2);
            var o := GuessSpec(s, token, guess, later1, later2).outcome;
            (later1 < now2 + TokenTtlSeconds && later2 < now2 + TokenTtlSeconds ==> o == Compare(guess, secret)) &&
            (now2 + TokenTtlSeconds <= later1 || now2 + TokenTtlSeconds <= later2 ==> o == UnknownOrExpiredToken)
  {
  }

  /** `/init` and `/try` keep every stored secret inside the random source's
      range. */
  lemma InitKeepsSecretsInRange(m: map<Token, Entry>, token: Token, secret: int, now1: int, now2: int)
    requires SecretsInRange(m) && InSecretRange(secret)
    ensures SecretsInRange(InitSpec(m, token, secret, now1, now2))
  {
  }

  lemma GuessKeepsSecretsInRange(m: map<Token, Entry>, token: Token, guess: int, now1: int, now2: int)
    requires SecretsInRange(m)
    ensures SecretsInRange(GuessSpec(m, token, guess, now1, now2).store)
  {
  }
}
