# PastebinClone paste core in Dafny

This project models the core of PastebinClone, a paste service, and proves properties of that model. A paste's body goes to an object store. Its metadata row goes into a `texts` table under a short token. Tokens are taken from a pre-generated queue in a shared key/value store.

The model covers five pieces:

- **Hash reservation** (`hash_reservation.dfy`, `text_repository.dfy`). A Lua reservation script runs as one atomic step over four pieces of state: the token queue, the generation lock (owner and TTL), the append-only generation-request stream, and the threshold. Around the script sit:
  - the bounded retry loop;
  - the parser for the script's flat key/value reply;
  - `create`, the insert with compensation: roll back and push the token back;
  - stuck-lock reclaim and lock extension;
  - the active/expired filter and the cleanup of expired texts.

  The script and the loop are pure functions (`Reserve`, `RetryFrom`) with lemmas about them. The class `TextRepository.Repository` runs them imperatively: its methods are proved equal to those functions.
- **Cache-aside store** (`text_cache.dfy`). Per token, the cache holds a metadata entry and a content entry, each with its TTL. A daily popularity sorted set sits beside them, and every hit refreshes its TTL. The operations cover:
  - the atomic paired read, which bumps the score only on a hit;
  - the single-key reads;
  - the writers, which replace a falsy TTL with the default;
  - `is_popular`, including its truthiness rules;
  - top-N by score, including Redis's negative stop index.
- **Orchestration** (`text_service.dfy`):
  - the read path: cache, recheck, fetch, a TTL chosen by popularity, then populate;
  - the create path: upload, build the entity, reserve and insert, and on failure delete the uploaded object on a best-effort basis;
  - the service's own location check.
- **Location strings** (`s3_storage.dfy`). `s3://bucket/key` formatting and parsing goes through Python's `replace`/`split`. The blob store's upload, get and delete are included.
- **Entities** (`text_entity.dfy`, `item_entity.dfy`):
  - `Text.create`, `from_model`, `to_dict` and `from_dict` over a small dictionary value type;
  - `Item.create` and its partial `update`.

Environment inputs are parameters:

- the clock and the uuid values;
- the store's TIME and the stream ids it assigns;
- whether a call to the key/value store, the database or the object store fails.

The retry loop receives these per attempt through `HashReservation.Env`.

## Model

| member | source | states |
|---|---|---|
| HashReservation.Reserve | app/infrastructure/repositories/text_repository.py:27-89 | A non-empty queue loses its head and replies `success` with that token and the remaining length, with lock and stream untouched. An empty queue stays empty. A held lock is never changed. The stream either stays the same or gains exactly one generation entry, and in that case the lock now belongs to the caller with the given TTL. |
| HashReservation.ReserveStatus | app/infrastructure/repositories/text_repository.py:38-87 | Each of the four statuses holds exactly when its condition holds. Because the length after a failed pop is 0, `temporarily_unavailable` occurs iff threshold <= 0. |
| HashReservation.ReserveRequestsGeneration | app/infrastructure/repositories/text_repository.py:51-73 | Empty queue, positive threshold, free lock: the whole new state is the caller's lock with its TTL and one appended message (batch size, service, time, request id, lock key, length 0). The reply is `generation_requested`. |
| HashReservation.ReserveLeavesStoreAlone | app/infrastructure/repositories/text_repository.py:74-87 | An empty queue with the lock held, or a non-positive threshold, leaves the store unchanged. |
| HashReservation.ReserveTwiceOnEmpty | app/infrastructure/repositories/text_repository.py:51-81 | Two calls on an empty queue with a free lock: the first replies requested, the second replies in progress and changes nothing. |
| HashReservation.ReserveAllInProgress | app/infrastructure/repositories/text_repository.py:74-81 | Any number of serialized script calls (`ReserveAll`, each on the store the previous call left) on an empty queue with the lock held all reply in progress and change nothing. |
| HashReservation.ReserveAllDrainsThenRequests | app/infrastructure/repositories/text_repository.py:27-89 | N serialized calls against M < N queued tokens with a free lock and positive thresholds: callers 0..M-1 get the tokens in queue order (each token to exactly one caller), caller M requests generation and takes the lock, and every later caller sees generation in progress. The store ends with an empty queue, caller M's lock and exactly one appended request. |
| HashReservation.PairsAppend | app/infrastructure/repositories/text_repository.py:255-260 | Parsing a reply extended by one pair is parsing the prefix and then setting that key. |
| HashReservation.PairsKeys | app/infrastructure/repositories/text_repository.py:252-261 | The parsed dictionary's keys are exactly the elements at even positions. |
| HashReservation.PairsLastWins | app/infrastructure/repositories/text_repository.py:255-260 | A key maps to the element after its last even-position occurrence, so later duplicates overwrite earlier ones. |
| HashReservation.Classify | app/infrastructure/repositories/text_repository.py:216-235 | An unparsable reply raises, and so does a missing `status` key. A token is returned only for `success` with a bulk `hash`. Any status outside the four known ones raises `UnknownStatus`. |
| HashReservation.ClassifyScriptReply | app/infrastructure/repositories/text_repository.py:216-232 | Every reply the script can give parses and classifies without raising: the head token, the generation delay, the wait delay or the backoff delay, according to the outcome. |
| HashReservation.ArgsAt | app/infrastructure/repositories/text_repository.py:206-212 | The loop always passes a lock TTL the store accepts (60 seconds). |
| HashReservation.AttemptStep | app/infrastructure/repositories/text_repository.py:198-235 | A failing store call raises and changes nothing. Otherwise the attempt is the script's transition followed by its classified step. |
| HashReservation.RetryWithoutAttempts | app/infrastructure/repositories/text_repository.py:197-250 | When `max_retries` <= 0 there is no call at all and no token. |
| HashReservation.RetryAttempts | app/infrastructure/repositories/text_repository.py:197-250 | About `RetryFrom`, the loop as a recursive definition over `Attempt` (one iteration). A run makes between 1 and `max_retries` attempts and sleeps once fewer, so there is no sleep after the last attempt. It stops early only with a token. The run raises iff it reaches the final attempt without a token and that attempt's store call fails, and then the error is the store failure. Every sleep is the error delay iff the store call of its attempt failed, so earlier exceptions are retried after the error delay. |
| HashReservation.RetryTokenIsHead | app/infrastructure/repositories/text_repository.py:197-220 | A returned token is the old queue head, and its run changed nothing but the pop. A run without a token leaves the queue unchanged. |
| HashReservation.RetryGetsHead | app/infrastructure/repositories/text_repository.py:197-220 | With tokens queued, one reachable attempt is enough to return the head token. |
| HashReservation.RetryOnEmptyQueue | app/infrastructure/repositories/text_repository.py:197-250 | On an empty queue no token is returned and the queue stays empty. If the lock was held or the threshold is non-positive, the store is unchanged. Otherwise at most one request is appended. |
| HashReservation.RetryGenerationDelays | app/infrastructure/repositories/text_repository.py:222-224 | On an empty queue the generation delay is slept at most once, and never when the lock was held. |
| HashReservation.RetryRequestsGeneration | app/infrastructure/repositories/text_repository.py:197-250 | Empty queue, free lock, positive threshold, and one reachable attempt: the run ends with the lock owned by this service for 60 s and exactly one appended request from it. |
| TextRepository.ReclaimStuck | app/infrastructure/repositories/text_repository.py:312-318 | The lock is deleted iff it exists and its TTL is missing or below 5 seconds. Otherwise it is untouched. |
| TextRepository.Extended | app/infrastructure/repositories/text_repository.py:145-149 | An existing lock with less than 10 s left (or no expiry) gets exactly 60 s and keeps its owner. An existing lock with 10 s or more is untouched, and a missing lock stays missing. |
| TextRepository.ExtendedLockSurvivesHealthCheck | app/infrastructure/repositories/text_repository.py:145-149 | A lock the extension has just handled is never taken for a stuck lock by the health check's rule. |
| TextRepository.ActiveIffNotExpired | app/infrastructure/repositories/text_repository.py:331-361 | The active filter of `get_active_text` and the cleanup's expired filter are complements. |
| TextRepository.RowFor | app/infrastructure/repositories/text_repository.py:169-182 | The inserted row, read back through `from_model`, is the entity with the reserved token. |
| TextRepository.InsertableIffFresh | app/infrastructure/repositories/text_repository.py:169-179 | The commit accepts a row iff its token is not yet in the table; a missing expiration date or timestamp does not block it (the date columns are nullable). |
| TextRepository.ReissuedTokenCollides | app/infrastructure/repositories/text_repository.py:38-47 | A committed token pushed back to the front is handed out again by the next reservation. The table here is keyed by token, so the second insert is refused. |
| TextRepository.Repository.AtomicCheckConsume | app/infrastructure/repositories/text_repository.py:27-89 | The imperative script's new queue, lock, stream and reply are exactly those of `Reserve`. |
| TextRepository.Repository.ParseLuaResult | app/infrastructure/repositories/text_repository.py:252-261 | The pair-by-pair loop builds the dictionary `Pairs` describes. An odd-length reply fails with the index error. |
| TextRepository.Repository.ConsumeHashWithRetry | app/infrastructure/repositories/text_repository.py:194-250 | The loop's result, its sequence of delay kinds and the final store are those of `RetryFrom` from attempt 0 (the recursive definition of the same loop, whose properties are the `Retry*` lemmas). |
| TextRepository.Repository.RunAttempt | app/infrastructure/repositories/text_repository.py:198-235 | One loop iteration's store change and step are those of `Attempt` (a failing call raises with no change; otherwise the script, the parse and `Classify`). |
| TextRepository.Repository.ReturnHashToQueue | app/infrastructure/repositories/text_repository.py:263-270 | A non-empty token goes to the front of the queue, so the next reservation gets it. An absent or empty token, or a failing push, leaves the queue alone. |
| TextRepository.Repository.Create | app/infrastructure/repositories/text_repository.py:151-192 | As written. A failed begin changes nothing. An exception from the loop is passed on. No token, or an empty one, gives `HashNotAcquired`. A failed commit (injected, or a token already in the table) rolls back and returns the token to the front. A successful commit inserts the row keyed by the old queue head, and the entity comes back with that token unless the refresh fails. A refresh failure still leaves the row committed, yet the token goes back to the front of the queue. The table changes on a failure only in that case. A rollback that raises skips the push-back and its error replaces the original one, so a reserved token stays out of the queue. With a working rollback and push and a non-empty head, no failure loses a token. |
| TextRepository.Repository.CreateCorrected | app/infrastructure/repositories/text_repository.py:151-192 | The same chain with a failing refresh after the commit counted as success, and with the push-back running even when the rollback raises. It succeeds iff begin and commit work and the loop yields a non-empty, unused token. Every failure leaves the table unchanged and, with a working push, the queue as it was. |
| TextRepository.Repository.HealthCheck | app/infrastructure/repositories/text_repository.py:305-329 | An unreachable store reports unhealthy and changes nothing. Otherwise the report holds the queue length, whether the lock exists and its TTL, and the lock becomes `ReclaimStuck` of the old lock. |
| TextRepository.Repository.ExtendLockIfNeeded | app/infrastructure/repositories/text_repository.py:145-149 | The lock becomes `Extended` of the old lock. |
| TextRepository.Repository.GetActiveText | app/infrastructure/repositories/text_repository.py:331-339 | A row is returned iff its token is in the table and the row is active (no expiration, or expiration later than now). |
| TextRepository.Repository.CleanupExpiredTexts | app/infrastructure/repositories/text_repository.py:349-361 | Exactly the rows whose expiration is set and not after now are deleted, and their number is returned. Every remaining row is active, and every active row survives unchanged. |
| TextCache.Bumped | app/infrastructure/cache/text_cache_service.py:93-100 | The bumped member's score rises by exactly one (from 0 when absent). No other score changes. |
| TextCache.BumpNScore | app/infrastructure/cache/text_cache_service.py:49-82 | k hits raise the member's score by exactly k and leave every other score unchanged. So reading metadata and content separately counts 2. |
| TextCache.BumpNMonotone | app/infrastructure/cache/text_cache_service.py:93-100 | No score ever decreases. |
| TextCache.PopularAfterHits | app/infrastructure/cache/text_cache_service.py:109-114 | A token read at least `threshold` times, and at least once, is popular. |
| TextCache.NeverReadNotPopular | app/infrastructure/cache/text_cache_service.py:112-113 | An absent score is never popular, even for threshold <= 0. |
| TextCache.EffectiveTtl | app/infrastructure/cache/text_cache_service.py:63-91 | A missing or zero TTL becomes the default. Any other TTL is kept. |
| TextCache.RangeCount | app/infrastructure/cache/text_cache_service.py:105-107 | A positive limit gives min(limit, n) members. Limit 0 gives stop -1 and so all n members. A negative limit counts from the end. |
| TextCache.HighestExists | app/infrastructure/cache/text_cache_service.py:107 | A non-empty set of members has one with the highest score. |
| TextCache.PairIn | app/infrastructure/cache/text_cache_service.py:37-46 | The paired view is present iff both keys are present, and then it is both stored values. |
| TextCache.PairAfterWrite | app/infrastructure/cache/text_cache_service.py:118-145 | Round trip: after both entries of h are written, the paired read of h returns exactly them. Other tokens are unaffected. |
| TextCache.CacheStore.Bump | app/infrastructure/cache/text_cache_service.py:93-100 | ZINCRBY by 1, and the popularity set's TTL becomes 86400. |
| TextCache.CacheStore.GetCompleteText | app/infrastructure/cache/text_cache_service.py:128-145 | A hit needs both keys and returns both values, bumps the score by exactly 1 and sets the TTL to 86400. A miss leaves popularity and its TTL unchanged. |
| TextCache.CacheStore.GetTextMetadata | app/infrastructure/cache/text_cache_service.py:49-61 | A hit returns the stored metadata and bumps the score. A miss changes nothing. |
| TextCache.CacheStore.GetTextContent | app/infrastructure/cache/text_cache_service.py:72-82 | Any stored value bumps the score, but an empty content is returned as nothing. |
| TextCache.CacheStore.CacheTextMetadata | app/infrastructure/cache/text_cache_service.py:63-70 | Writes with the effective TTL. A non-positive TTL is refused and writes nothing. |
| TextCache.CacheStore.CacheTextContent | app/infrastructure/cache/text_cache_service.py:84-91 | As for metadata, on the content key. |
| TextCache.CacheStore.CacheCompleteText | app/infrastructure/cache/text_cache_service.py:118-126 | Both keys get one identical TTL and no other token changes. A refused TTL writes neither key. |
| TextCache.CacheStore.IncrementPopularity | app/infrastructure/cache/text_cache_service.py:93-103 | Adds 1 and resets the TTL to 86400. A failure changes nothing and is not reported. |
| TextCache.CacheStore.IsPopular | app/infrastructure/cache/text_cache_service.py:109-116 | True iff the store is reachable and the score is non-zero and at least the threshold. |
| TextCache.CacheStore.GetPopularTexts | app/infrastructure/cache/text_cache_service.py:105-107 | Returns `RangeCount` distinct members, in non-increasing score order. No omitted member scores higher than a returned one. |
| TextService.Service.DynamicTtl | app/application/services/text_service.py:226-234 | The popular TTL iff `is_popular` holds. Otherwise, including when the popularity store fails, the default TTL. |
| TextService.Service.DynamicTtlDefaults | app/application/services/text_service.py:228-234 | An unreachable popularity store, or a token never read, gets the default TTL. |
| TextService.Service.DynamicTtlForPopular | app/application/services/text_service.py:229-230 | A score at or above a positive threshold gets the popular TTL. |
| TextService.Service.GetTextContent | app/application/services/text_service.py:200-223 | Fails with the parse error unless, after stripping the scheme, the location is the configured bucket, '/', key. With a good location it returns the stored body, or the storage error. |
| TextService.Service.GetFullText | app/application/services/text_service.py:95-109 | Nothing without an active text. Otherwise the active row and the body stored under the key parsed from its location. This always succeeds when the location parses and the object is there. |
| TextService.Service.GetTextWithContent | app/application/services/text_service.py:111-125 | The pair when `get_full_text` finds one. Nothing when it finds none or fails. |
| TextService.Service.GetText | app/application/services/text_service.py:127-160 | A first-look hit is served from the cache, bumps popularity and writes nothing (only the cache is modifiable). On a miss with no text found, nothing is written. On a miss with a text found, both entries are written once with the effective dynamic TTL and the same pair is served with `from_cache` false; a refused TTL is an error and writes nothing. |
| TextService.Service.CreateText | app/application/services/text_service.py:61-89 | As written, over the repository's `create` as written. If the upload fails, nothing changes and nothing is deleted. Success stores the body, pops the head token and inserts the entity with it. A later failure always returns the wrapped error and deletes the uploaded key when the location parses and delete works, so with colon-free names and a slash-free bucket the body is gone. The table is unchanged unless the refresh failed after the commit, and then the committed row for the old head token points at that deleted body. With a working rollback and push the token is not lost. |
| TextService.Service.CreateTextCorrected | app/application/services/text_service.py:61-89 | The same chain over the corrected repository create. Every failure leaves the table unchanged, so deleting the body never orphans a live row, and with a working push the queue is as it was, whether or not the rollback raised. |
| S3Storage.StripScheme | app/infrastructure/storage/s3_storage_service.py:57 | Removing every non-overlapping "s3://", left to right, never makes the string longer. |
| S3Storage.SplitOnce | app/infrastructure/storage/s3_storage_service.py:57 | Without '/' the result is the whole string. Otherwise it is the part before the first '/' and everything after it. |
| S3Storage.ParseLocation | app/infrastructure/storage/s3_storage_service.py:55-65 | Invalid format iff no '/' remains after stripping. On success the stripped location is bucket, '/', the returned key, and the bucket has no '/'. |
| S3Storage.ParseLocationAccepts | app/infrastructure/storage/s3_storage_service.py:57-65 | Parsing succeeds iff the stripped location starts with the configured bucket followed by '/' (with a slash-free bucket). A different first segment is rejected as an unexpected bucket. |
| S3Storage.SplitAtFirstSlash | app/infrastructure/storage/s3_storage_service.py:55-65 | Splitting head + "/" + tail with a slash-free head gives head and tail, so the key may itself contain '/'. |
| S3Storage.StripSchemeNoOp | app/infrastructure/storage/s3_storage_service.py:57 | A string without "s3://" is unchanged by stripping. |
| S3Storage.NoColonNoScheme | app/infrastructure/storage/s3_storage_service.py:57 | A string without ':' contains no "s3://". |
| S3Storage.StripEmbeddedScheme | app/infrastructure/storage/s3_storage_service.py:57 | An "s3://" after a colon-free prefix is removed as well, not only a leading one. |
| S3Storage.ParseFormatRoundTrip | app/infrastructure/storage/s3_storage_service.py:38-65 | Round trip: parsing `FormatLocation`'s `s3://{bucket}/{name}` (the f-string of `upload_text`) with a slash-free bucket and no "s3://" in bucket or name returns the name. |
| S3Storage.UploadLocationRoundTrip | app/infrastructure/storage/s3_storage_service.py:28-65 | An upload's location, with colon-free bucket and id, parses back to `<id>.txt`. |
| S3Storage.ParseDropsEmbeddedScheme | app/infrastructure/storage/s3_storage_service.py:55-65 | An "s3://" embedded in the key disappears from the returned key. |
| S3Storage.BlobStore.UploadText | app/infrastructure/storage/s3_storage_service.py:20-42 | With a falsy `text` the body is `content`. It is stored under `<id>.txt` and the location `FormatLocation` builds is returned. A client error stores nothing. |
| S3Storage.BlobStore.GetTextContent | app/infrastructure/storage/s3_storage_service.py:44-53 | Succeeds iff the store is reachable and the key exists, and then returns its body. |
| S3Storage.BlobStore.DeleteText | app/infrastructure/storage/s3_storage_service.py:67-72 | Removes the key (or nothing if it is missing). A client error removes nothing and is reported. |
| TextEntity.Create | app/domain/entities/text.py:17-27 | No token yet. `created_at == updated_at` == now. Location, expiration and id are the given ones. |
| TextEntity.FromModel | app/domain/entities/text.py:29-38 | All six columns are copied. |
| TextEntity.ToDict | app/domain/entities/text.py:40-49 | Exactly six keys. Each optional field is `None` iff it is absent, and the token passes through. |
| TextEntity.FromDict | app/domain/entities/text.py:51-64 | A missing or `None` `created_at`/`updated_at` reads as absent, and so does a missing `hash_value`. The expiration is always present on success. A `None` expiration raises the type error. |
| TextEntity.FromDictCorrected | app/domain/entities/text.py:51-64 | An absent or `None` expiration reads as absent. It agrees with `from_dict` wherever that succeeds. |
| TextEntity.DictRoundTrip | app/domain/entities/text.py:40-64 | Round trip: an entity with an expiration date survives `to_dict` then `from_dict` unchanged, up to the id's type (the id is a plain string here). |
| TextEntity.DictRoundTripFailsWithoutExpiration | app/domain/entities/text.py:45-60 | An entity without an expiration date serialises to a dictionary that `from_dict` rejects. |
| TextEntity.CreatedTextRoundTrip | app/domain/entities/text.py:17-64 | A freshly created entity with an expiration date keeps its location and its absent token through serialisation. |
| TextEntity.DictRoundTripCorrected | app/domain/entities/text.py:40-64 | With the corrected reader every entity round-trips. |
| ItemEntity.Item.Create | app/domain/entities/item.py:14-24 | `id` is absent, `is_active` is true, `created_at == updated_at` == now, and title and description are the given ones. |
| ItemEntity.Item.Update | app/domain/entities/item.py:26-33 | Each field whose argument is given (False and "" included) is overwritten, and an absent argument leaves its field alone. `updated_at` is always the clock value. `id` and `created_at` never change. |

## Left out

- I/O and clients are replaced by in-memory state. That covers the Redis client and its connection handling, the SQL session and queries, and the boto3 calls. Their failures become boolean parameters.
- A failing call is assumed to have had no effect. A reply lost after the reservation script already ran (a read timeout, say) would have popped a token that the retry loop never sees, and an upload or delete could fail after taking effect. The contracts that say no token is lost (`HashReservation.RetryTokenIsHead`, `TextRepository.Repository.Create`, `TextRepository.Repository.CreateCorrected`, `TextService.Service.CreateText`, `TextService.Service.CreateTextCorrected`) hold only under this assumption.
- The clock, `uuid4`, Redis `TIME` and the stream ids Redis assigns are parameters.
- Concurrency is left out:
  - the `threading.RLock` in `text_service.py` is dropped and the read path runs sequentially, so the recheck in `get_text` always sees the first miss;
  - each Lua script and each transactional pipeline is one atomic method.
- The backoff formulas (`_calculate_*_delay`) use float powers and `random.uniform`, and `time.sleep` is an effect. Only the delay kind chosen at each attempt is modelled, along with the number of sleeps.
- `check_hash_availability` is broken dead code: it uses a script attribute that is never defined. `_request_hash_generation` is uuid/time plumbing around an XADD. Neither is modelled.
- `get_text` and `get_all_active_texts` of the repository, and the service's `get_text_metadata`, `upload_text_to_s3` and `get_text_from_s3`, are one-line delegations. They are modelled only where the core uses them.
- Time passing is not modelled, so cache entries, the popularity set and the lock never expire on their own. TTLs are recorded as written, and the lock TTL is read as given.
- Metadata in the cache is an opaque value, and its JSON encoding is taken to round-trip.
- TextService.Service.GetText: fills the cache and serves the text on a miss that finds one. The program does not: it hands the raw `Texts` row to `cache_complete_text`, which calls `to_dict()`. `Texts` (app/infrastructure/database/models.py:36-42) has no such method, so in the program that request fails with an AttributeError before either key is written, and `get_text` never fills the cache.
- Datetimes and their ISO strings are abstracted as integer instants. `UUID(...)` validation of the id in `from_dict` is not modelled: ids are plain strings.
- TextEntity.FromDict: the entity's `location` and `hash_value` are strings here, so a non-string value (`None` or a datetime for `location`, a datetime for `hash_value`) is refused with a type error. The source copies any value into those fields unchecked.
- The texts table is keyed by `hash_value` alone. The source's key is composite (`id`, `hash_value`), so it would accept a second row with the same token and a different id; here such an insert is refused.
- Popularity scores are natural numbers; Redis stores them as floats.
- TextCache.CacheStore.GetPopularTexts: the order among equal scores is not modelled (Redis orders them by reverse lexicographic member order).
- TextCache.CacheStore.GetCompleteText: the reads assume a reachable cache. A cache exception on the read path, which `get_text` would propagate, is not modelled.
- HashReservation.Classify: a `hash` field that is not a bulk string raises `HashNotAString`. The source raises nothing there and returns whatever the field holds. The case cannot arise, because the script always returns the hash as a bulk string.
- TextRepository.Repository.Create: a failed commit is an injected fault or a token already in the table. The rest of the session's state (objects added, the refreshed row) is not modelled.
- TextRepository.Repository.CleanupExpiredTexts: a failing commit is not modelled.
- TextRepository.Repository.Create: as in the source, it does not promise to keep a reserved token when the rollback raises, or the table unchanged when the refresh fails after the commit (see Findings); `CreateCorrected` promises both.
- TextService.Service.CreateText: as in the source, it does not promise an unchanged table on a failure whose refresh failed after the commit, nor a kept token when the rollback raises; `CreateTextCorrected` promises both.
- HashReservation.RetryOnEmptyQueue, HashReservation.RetryGenerationDelays, HashReservation.RetryRequestsGeneration: they describe a store that nothing but the loop itself touches between attempts. No generator refills the queue during the waits and no one releases the lock, although making room for exactly that is what the waits are for. With a refill, a later attempt of the program can return a token.
- The router passes `HASH_BATCH_SIZE` where the repository expects its threshold. The model takes the threshold as a constructor parameter.

## Findings

| source | as written | input that shows it | evidently intended | confidence | as-written member | corrected member |
|---|---|---|---|---|---|---|
| app/domain/entities/text.py:45-60 | `to_dict` writes `None` for a missing expiration date, but `from_dict` always parses that field | an entity with `expiration_date = None`: `from_dict(to_dict(t))` raises a type error | the expiration date is optional, as the active filter treats it (`expiration_date IS NULL` counts as active), so `from_dict` should read it like `created_at` | medium, not executed | TextEntity.FromDict, TextEntity.DictRoundTripFailsWithoutExpiration | TextEntity.FromDictCorrected, TextEntity.DictRoundTripCorrected |
| app/infrastructure/repositories/text_repository.py:179-190 | the row is refreshed after the commit inside the same `try`, and the `except` block returns the reserved token to the queue whatever happened | `commit()` succeeds and `refresh()` then fails (a dropped connection): the row is stored, the rollback undoes nothing, and the token goes back to the front; the next reservation hands the same token to another text, and the composite key (`id`, `hash_value`) lets that second row in | a committed token is spent and the text exists: the compensation should run only while nothing is committed | medium, not executed | TextRepository.Repository.Create, TextRepository.ReissuedTokenCollides | TextRepository.Repository.CreateCorrected |
| app/application/services/text_service.py:75-82 | `create_text` deletes the uploaded body whenever the repository's `create` raises | the refresh failure of the row above: `create` raises after the commit, so the body of a live, committed text is deleted and reads of its token fail in the blob store | delete the body only when no row was committed | medium, not executed | TextService.Service.CreateText | TextService.Service.CreateTextCorrected |
| app/infrastructure/repositories/text_repository.py:186-190 | the rollback and the push-back of the reserved token run in sequence in one `except` block | `rollback()` raises (a dropped connection) after a failed commit: the push-back never runs, the token has left the queue and no row holds it | the compensations are independent: the token goes back even when the rollback fails, and the original error is raised | medium, not executed | TextRepository.Repository.Create | TextRepository.Repository.CreateCorrected |
