# Token sessions of the "guess the number" service

The service hands out session tokens, each bound to a secret integer in
`[1, 2^31 - 1]` that is valid for 60 seconds, and answers guesses against a
token with `TOO_SMALL`, `TOO_BIG` or `FOUND` until the token is solved or
expires. All sessions live in one process-wide dictionary `TOKENS`
(token -> (secret, expiry)). This project models that store and the three
operations that change it:

- `_purge_expired`: drops every entry whose expiry is at or before "now";
- `init`: purges, then binds a new token to a secret until a second clock
  reading plus `TOKEN_TTL_SECONDS` (60);
- `try_guess`: purges, answers 404 ("Unknown or expired token") for an
  absent token, removes a token that has expired by the second clock
  reading (lazy expiry), and otherwise compares the guess with the secret,
  consuming the token on `FOUND`.

Files:

- `session_store.dfy` (module `SessionStore`): the entry and outcome
  datatypes, the specification functions `Purged`, `Compare`, `InitSpec`
  and `GuessSpec`, and the class `Store` whose field `tokens` is the
  dictionary. `Store.Purge` keeps the source's two passes (collect the
  expired tokens, then pop them one by one in a loop). `Store.Init` and
  `Store.TryGuess` mutate the field as the endpoints do. Each method is
  proved to produce exactly the store its specification function describes.
- `session_properties.dfy` (module `SessionProperties`): lemmas about one
  purge, one `init` and one guess.
- `session_trace.dfy` (module `SessionTrace`): a request sequence (`Run`)
  and lemmas about a token's whole life: one-shot consumption, a secret is
  never rebound, the secret range is kept. It also holds two sample
  scenarios.

Time is integer ticks. Each endpoint reads the clock twice: `now1` inside
the purge, `now2` afterwards (`main.py:48` in `init`, `main.py:83` in
`try_guess`). The model does not assume `now1 <= now2`, because the code does
not depend on it. `LazyExpiryReachable` shows that the lazy-expiry branch
is reachable with `now1 < now2`. The uuid, the random secret and the clock
readings are parameters.

A new token equal to a live one overwrites it (`TOKENS[token] = ...`,
`main.py:49`). The model does the same: see `InitSpec`. Keys are distinct
because the store is a map; a colliding token replaces the live session.

## Model

| member | source | states |
|---|---|---|
| `SessionStore.Purged` | main.py:23-27 | after a purge at `now`, an entry remains iff it was present with expiry after `now`; every remaining entry is unchanged (so no entry with expiry at or before `now` remains) |
| `SessionStore.Compare` | main.py:87-90 | trichotomy: `TooSmall` iff guess < secret, `TooBig` iff guess > secret, `Found` iff guess == secret; never the 404 outcome |
| `SessionStore.InitSpec` | main.py:43-49 | the new token maps to `(secret, now2 + 60)`, overwriting any equal token; every other token is present iff it was present and unexpired at `now1`, with its entry unchanged |
| `SessionStore.GuessSpec` | main.py:76-99 | the outcome is 404 iff the token is absent or expired at either clock reading; otherwise `TooSmall`/`TooBig`/`Found` iff the guess is below/above/equal to the secret; the token stays iff it is live and the guess is wrong; other tokens are exactly those left by the purge; no entry is altered |
| `SessionStore.Store.constructor` | main.py:14 | the store starts empty |
| `SessionStore.Store.Purge` | main.py:23-27 | the collect-then-pop loop leaves exactly `Purged(old tokens, now)`, with the secret-range invariant kept |
| `SessionStore.Store.Init` | main.py:43-49 | the store becomes `InitSpec(old tokens, ...)`; the reply carries the quad, the token and 60 seconds of validity |
| `SessionStore.Store.TryGuess` | main.py:76-99 | the returned outcome and the new store are exactly `GuessSpec(old tokens, ...)` |
| `SessionProperties.PurgeComposes` | main.py:23-27 | purging at an earlier then a later instant equals purging once at the later instant (so a purge is idempotent) |
| `SessionProperties.PurgeShrinks` | main.py:25-27 | a purge only removes keys, so the store never grows |
| `SessionProperties.UnknownTokenLeavesStore` | main.py:76-80 | a token absent after the purge answers 404 and the store stays as the purge left it |
| `SessionProperties.LazyExpiryRemovesToken` | main.py:82-85 | a token that survives the purge but is expired at the second reading answers 404 and is removed, nothing else changes |
| `SessionProperties.LazyExpiryReachable` | main.py:82-85 | a concrete store and clock readings `9 < 10` in which the lazy-expiry branch is taken |
| `SessionProperties.WrongGuessKeepsPurgedStore` | main.py:87-90 | `TooSmall` or `TooBig` leaves the store exactly as the purge left it |
| `SessionProperties.WrongGuessIdempotent` | main.py:87-90 | repeating a wrong guess with the same clock readings yields the same outcome and the same store |
| `SessionProperties.WrongGuessUnobservable` | main.py:76-90 | any later guess (purge not earlier) sees the same outcome and leaves the same store whether or not the wrong guess happened |
| `SessionProperties.FoundConsumesToken` | main.py:78-93 | after `Found` the token is gone, and any later guess with it, at any clock readings, answers 404 and changes only what its purge changes |
| `SessionProperties.FoundRemovesOnlyToken` | main.py:92-93 | `Found` leaves the purged store minus the guessed token |
| `SessionProperties.IssuedTokenAnswers` | main.py:48-49 | a freshly issued token answers by comparison with its secret while both readings are before `now2 + 60`, and with 404 from then on |
| `SessionProperties.InitKeepsSecretsInRange` | main.py:47-49 | `init` with a secret in `[1, 2^31 - 1]` keeps every stored secret in that range |
| `SessionProperties.GuessKeepsSecretsInRange` | main.py:76-93 | a guess keeps every stored secret in range |
| `SessionTrace.AbsentTokenStaysUnknown` | main.py:78-80 | an absent token stays absent and every guess with it answers 404 across any request sequence that does not issue it again |
| `SessionTrace.OneShotConsumption` | main.py:92-93 | after `Found`, every later guess with that token in any request sequence answers 404 unless the token is issued again |
| `SessionTrace.EntryNeverRebound` | main.py:49 | a token not issued again keeps the entry it started with, or disappears; it is never bound to another secret |
| `SessionTrace.RunKeepsSecretsInRange` | main.py:47-49 | across any request sequence whose secrets are drawn in range, every stored secret stays in `[1, 2^31 - 1]` |
| `SessionTrace.GuessingScenario` | main.py:76-99 | token bound to 500000: guess 1 gives `TooSmall`, 2147483647 gives `TooBig`, 500000 gives `Found`, and a repeat gives 404 |
| `SessionTrace.ExpiryScenario` | main.py:82-85 | a token guessed 61 seconds after issue answers 404 whatever the guess |

## Left out

- HTTP wiring (app creation, routes, `HTTPException`) is not modelled. The 404 is the outcome `UnknownOrExpiredToken`.
- Query validation by the framework is not modelled beyond preconditions. `Store.Init` requires the quad to match `^[A-Z]{2,4}$`, and `Store.TryGuess` requires `1 <= guess <= 2^31 - 1`. Out-of-range input never reaches the code.
- The XML and JSON response bodies are not modelled; they contain only string interpolation. `Store.Init` returns the reply's fields.
- The wall clock `time.time()` is a float. The model uses integer ticks passed in as `now1` and `now2`.
- `uuid.uuid4()` and `random.randint` are parameters. Token uniqueness is probabilistic in the source, so it is not modelled. A collision overwrites.
- Concurrency is not modelled. The model assumes each request finishes before the next one starts, as `SessionTrace.Run` does. The handlers are plain functions, which the web framework runs on a worker thread pool, and no lock guards `TOKENS`. Interleaved requests on that pool are not captured, so the model misses three effects:
  - two correct guesses can both pass the checks at `main.py:78-83` and both answer FOUND, because `pop(token, None)` at `main.py:93` never fails;
  - a purge on another thread can remove the token between `main.py:78` and `main.py:82`, so `TOKENS[token]` raises `KeyError` and the request fails with a server error;
  - an `init` inserting while the comprehension at `main.py:25` iterates can raise "dictionary changed size during iteration".
  In the sequential model, `FoundConsumesToken` makes a second correct guess answer 404.
