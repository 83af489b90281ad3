/** Sequences of requests against the store: the life of a token across
    many `/init` and `/try` calls, each with its own clock readings. */
module SessionTrace {
  import opened SessionStore
  import SessionProperties

  /** One request, with the values the source draws from the clock, uuid and
      the random source passed in. */
  datatype Request =
    | InitRequest(token: Token, secret: int, now1: int, now2: int)
    | GuessRequest(token: Token, guess: int, now1: int, now2: int)

  /** The answer to one request. */
  datatype Response = Issued(token: Token) | Answer(outcome: Outcome)

  datatype TraceResult = TraceResult(responses: seq<Response>, store: map<Token, Entry>)

  /** One request applied to the store. */
  function Step(m: map<Token, Entry>, req: Request): (Response, map<Token, Entry>)
  {
    match req
    case InitRequest(token, secret, now1, now2) =>
      (Issued(token), InitSpec(m, token, secret, now1, now2))
    case GuessRequest(token, guess, now1, now2) =>
      var r := GuessSpec(m, token, guess, now1, now2);
      (Answer(r.outcome), r.store)
  }

  /** The requests applied in order; one response per request. */
  function Run(m: map<Token, Entry>, reqs: seq<Request>): (r: TraceResult)
    ensures |r.responses| == |reqs|
    decreases |reqs|
  {
    if reqs == [] then TraceResult([], m)
    else
      var (resp, m') := Step(m, reqs[0]);
      var rest := Run(m', reqs[1..]);
      TraceResult([resp] + rest.responses, rest.store)
  }

  /** No request in `reqs` issues `token` again. */
  predicate NeverReissued(reqs: seq<Request>, token: Token) {
    forall i :: 0 <= i < |reqs| && reqs[i].InitRequest? ==> reqs[i].token != token
  }

  /** Every `/init` in `reqs` draws its secret from the random source's range. */
  predicate SecretsDrawnInRange(reqs: seq<Request>) {
    forall i :: 0 <= i < |reqs| && reqs[i].InitRequest? ==> InSecretRange(reqs[i].secret)
  }

  /** A token absent from the store stays absent, and every `/try` with it
      answers 404, as long as no `/init` issues that same token again. */
  lemma {:induction false} AbsentTokenStaysUnknown(m: map<Token, Entry>, token: Token, reqs: seq<Request>)
    requires token !in m
    requires NeverReissued(reqs, token)
    ensures token !in Run(m, reqs).store
    ensures forall i :: 0 <= i < |reqs| && reqs[i].GuessRequest? && reqs[i].token == token ==>
              Run(m, reqs).responses[i] == Answer(UnknownOrExpiredToken)
    decreases |reqs|
  {
    if reqs != [] {
      var (resp, m') := Step(m, reqs[0]);
      assert token !in m';
      assert NeverReissued(reqs[1..], token) by {
        forall i | 0 <= i < |reqs[1..]| && reqs[1..][i].InitRequest?
          ensures reqs[1..][i].token != token
        {
          assert reqs[1..][i] == reqs[i + 1];
        }
      }
      AbsentTokenStaysUnknown(m', token, reqs[1..]);
      var r := Run(m, reqs);
      forall i | 0 <= i < |reqs| && reqs[i].GuessRequest? && reqs[i].token == token
        ensures r.responses[i] == Answer(UnknownOrExpiredToken)
      {
        if i > 0 {
          assert reqs[1..][i - 1] == reqs[i];
          assert r.responses[i] == Run(m', reqs[1..]).responses[i - 1];
        }
      }
    }
  }

  /** One-shot consumption: after a `/try` answers FOUND for a token, every
      later `/try` with it answers 404, unless that token is issued again. */
  lemma OneShotConsumption(m: map<Token, Entry>, token: Token, guess: int, now1: int, now2: int, reqs: seq<Request>)
    requires GuessSpec(m, token, guess, now1, now2).outcome == Found
    requires NeverReissued(reqs, token)
    ensures var s := GuessSpec(m, token, guess, now1, now2).store;
            forall i :: 0 <= i < |reqs| && reqs[i].GuessRequest? && reqs[i].token == token ==>
              Run(s, reqs).responses[i] == Answer(UnknownOrExpiredToken)
  {
    AbsentTokenStaysUnknown(GuessSpec(m, token, guess, now1, now2).store, token, reqs);
  }

  /** A token is bound to one secret for its whole life: if no request
      re-issues it, whatever entry it has at the end is the one it had at the
      start. */
  lemma {:induction false} EntryNeverRebound(m: map<Token, Entry>, token: Token, reqs: seq<Request>)
    requires NeverReissued(reqs, token)
    ensures token in Run(m, reqs).store ==> token in m && Run(m, reqs).store[token] == m[token]
    decreases |reqs|
  {
    if reqs != [] {
      var (resp, m') := Step(m, reqs[0]);
      assert token in m' ==> token in m && m'[token] == m[token];
      assert NeverReissued(reqs[1..], token) by {
        forall i | 0 <= i < |reqs[1..]| && reqs[1..][i].InitRequest?
          ensures reqs[1..][i].token != token
        {
          assert reqs[1..][i] == reqs[i + 1];
        }
      }
      EntryNeverRebound(m', token, reqs[1..]);
    }
  }

  /** Every secret in the store stays in `[1, 2^31 - 1]` across any run whose
      `/init` requests draw secrets from that range. */
  lemma {:induction false} RunKeepsSecretsInRange(m: map<Token, Entry>, reqs: seq<Request>)
    requires SecretsInRange(m)
    requires SecretsDrawnInRange(reqs)
    ensures SecretsInRange(Run(m, reqs).store)
    decreases |reqs|
  {
    if reqs != [] {
      var (resp, m') := Step(m, reqs[0]);
      match reqs[0] {
        case InitRequest(token, secret, now1, now2) =>
          assert InSecretRange(reqs[0].secret);
          SessionProperties.InitKeepsSecretsInRange(m, token, secret, now1, now2);
        case GuessRequest(token, guess, now1, now2) =>
          SessionProperties.GuessKeepsSecretsInRange(m, token, guess, now1, now2);
      }
      assert SecretsDrawnInRange(reqs[1..]) by {
        forall i | 0 <= i < |reqs[1..]| && reqs[1..][i].InitRequest?
          ensures InSecretRange(reqs[1..][i].secret)
        {
          assert reqs[1..][i] == reqs[i + 1];
        }
      }
      RunKeepsSecretsInRange(m', reqs[1..]);
    }
  }

  /** A sample game: a token bound to 500000 answers 1 with TOO_SMALL,
      2147483647 with TOO_BIG, 500000 with FOUND, and a repeat with 404. */
  lemma GuessingScenario()
    ensures Run(map[], [InitRequest("abc123", 500000, 0, 0),
                        GuessRequest("abc123", 1, 1, 1),
                        GuessRequest("abc123", 2147483647, 2, 2),
                        GuessRequest("abc123", 500000, 3, 3),
                        GuessRequest("abc123", 500000, 4, 4)]).responses
            == [Issued("abc123"), Answer(TooSmall), Answer(TooBig), Answer(Found), Answer(UnknownOrExpiredToken)]
  {
  }

  /** A token left alone for 61 seconds after it was issued answers 404 to
      any guess. */
  lemma ExpiryScenario(guess: int)
    ensures Run(map[], [InitRequest("abc123", 500000, 0, 0),
                        GuessRequest("abc123", guess, 61, 61)]).responses
            == [Issued("abc123"), Answer(UnknownOrExpiredToken)]
  {
  }
}
