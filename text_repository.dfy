/**
 * The text repository: the shared store that holds the token queue, the
 * generation lock and the request stream, plus the `texts` table, with the
 * operations that run the reservation script, retry it, create a text
 * record with compensation, maintain the lock and purge expired texts.
 */
module TextRepository {
  import opened Wrappers
  import opened HashReservation
  import opened TextEntity

  /**
   * The store's `TTL` of the lock key as the client returns it: -2 when the
   * key is missing, -1 when it has no expiry, otherwise the seconds left.
   */
  function RedisTtl(lock: Option<Lock>): int
  {
    match lock
    case None => -2
    case Some(Lock(_, ttl)) => if ttl.None? then -1 else ttl.value
  }

  /** The stuck-lock rule of the health check: an existing lock with less than 5 seconds left, or without expiry, is dropped. */
  function ReclaimStuck(lock: Option<Lock>): (r: Option<Lock>)
    ensures r.None? <==> lock.None? || lock.value.ttl.None? || lock.value.ttl.value < 5
    ensures r.Some? ==> r == lock
  {
    if lock.Some? && RedisTtl(lock) < 5 then None else lock
  }

  /** Lock extension: an existing lock with less than 10 seconds left (or no expiry) gets a TTL of 60 seconds; a missing lock stays missing. */
  function Extended(lock: Option<Lock>): (r: Option<Lock>)
    ensures r.Some? <==> lock.Some?
    ensures r.Some? ==> r.value.owner == lock.value.owner && RedisTtl(r) >= 10
    ensures lock.Some? && RedisTtl(lock) < 10 ==> r == Some(Lock(lock.value.owner, Some(60))) && RedisTtl(r) == 60
    ensures lock.Some? && RedisTtl(lock) >= 10 ==> r == lock
    ensures lock.None? ==> r == None
  {
    if lock.Some? && RedisTtl(lock) < 10 then Some(lock.value.(ttl := Some(60))) else lock
  }

  /** An extended lock is never taken for a stuck one. */
  lemma ExtendedLockSurvivesHealthCheck(lock: Option<Lock>)
    ensures ReclaimStuck(Extended(lock)) == Extended(lock)
  {
  }

  /** What the health check reports. */
  datatype Health = Healthy(queueLength: nat, lockExists: bool, lockTtl: Option<int>) | Unhealthy

  /** A text is active while it has no expiration date or the date is still ahead of `now`. */
  predicate IsActive(row: TextModel, now: Instant)
  {
    row.expirationDate.None? || row.expirationDate.value > now
  }

  /** The cleanup query: an expiration date that is set and not after `now`. */
  predicate IsExpired(row: TextModel, now: Instant)
  {
    row.expirationDate.Some? && row.expirationDate.value <= now
  }

  lemma ActiveIffNotExpired(row: TextModel, now: Instant)
    ensures IsActive(row, now) <==> !IsExpired(row, now)
  {
  }

  function ExpiredKeys(texts: map<string, TextModel>, now: Instant): set<string>
  {
    set h | h in texts && IsExpired(texts[h], now)
  }

  /** Failures of the collaborators of `create`. */
  datatype DbFaults = DbFaults(beginFails: bool, commitFails: bool, refreshFails: bool, rollbackFails: bool, pushBackFails: bool)

  /**
   * The queue after `create`'s compensation for the reserved token `h`: a
   * rollback that raises leaves the `except` block before the push-back.
   */
  function Compensated(queue: seq<string>, h: string, faults: DbFaults): seq<string>
  {
    if faults.rollbackFails || faults.pushBackFails then queue else [h] + queue
  }

  /** The error `create` raises: a raising rollback replaces the original one. */
  function CreateError(e: RepoError, faults: DbFaults): RepoError
  {
    if faults.rollbackFails then DatabaseError else e
  }

  /** The row `create` inserts: the entity's columns with the reserved token. */
  function RowFor(text: Text, token: string): (row: TextModel)
    ensures FromModel(row).hashValue == Some(token) && FromModel(row).location == text.location
    ensures FromModel(row) == text.(hashValue := Some(token))
  {
    TextModel(text.id, text.location, text.expirationDate, token, text.createdAt, text.updatedAt)
  }

  /** What the table accepts at commit: a token not yet used (its date columns are all nullable). */
  predicate Insertable(texts: map<string, TextModel>, row: TextModel)
  {
    row.hashValue !in texts
  }

  /** Any entity, with or without an expiration date, can be inserted under a fresh token. */
  lemma InsertableIffFresh(texts: map<string, TextModel>, text: Text, token: string)
    ensures Insertable(texts, RowFor(text, token)) <==> token !in texts
  {
  }

  /**
   * A token that is already committed and sits at the front of the queue is
   * handed out again by the next reservation, and its insert is refused.
   */
  lemma ReissuedTokenCollides(st: Store, a: ScriptArgs, texts: map<string, TextModel>, text: Text)
    requires a.lockTtl > 0 && st.queue != [] && st.queue[0] in texts
    ensures Reserve(st, a).1 == SuccessReply(st.queue[0], |st.queue| - 1)
    ensures !Insertable(texts, RowFor(text, st.queue[0]))
  {
  }

  class Repository {
    var queue: seq<string>
    var lock: Option<Lock>
    var stream: seq<StreamEntry>
    var texts: map<string, TextModel>
    const threshold: int
    const batchSize: string
    const serviceId: string

    constructor (threshold: int, batchSize: string, serviceId: string, tokens: seq<string>)
      ensures this.threshold == threshold && this.batchSize == batchSize && this.serviceId == serviceId
      ensures queue == tokens && lock == None && stream == [] && texts == map[]
      ensures Valid()
    {
      this.threshold := threshold;
      this.batchSize := batchSize;
      this.serviceId := serviceId;
      queue := tokens;
      lock := None;
      stream := [];
      texts := map[];
    }

    /** The table is keyed by its `hash_value` column. */
    ghost predicate Valid()
      reads this
    {
      forall k | k in texts :: texts[k].hashValue == k
    }

    /** The shared-store part of the state. */
    function Snapshot(): Store
      reads this
    {
      Store(queue, lock, stream)
    }

    function Config(): Settings
    {
      Settings(threshold, batchSize, serviceId)
    }

    /** The reservation script, executed in one atomic step against the store. */
    method AtomicCheckConsume(a: ScriptArgs) returns (reply: seq<Reply>)
      requires a.lockTtl > 0
      modifies this`queue, this`lock, this`stream
      ensures (Snapshot(), reply) == Reserve(old(Snapshot()), a)
    {
      var hashValue: Option<string> := None;
      if queue != [] {
        hashValue := Some(queue[0]);
        queue := queue[1..];
      }
      var queueLength := |queue|;
      if hashValue.Some? {
        return SuccessReply(hashValue.value, queueLength);
      }
      if queueLength < a.threshold {
        if lock.None? {
          lock := Some(Lock(a.serviceId, Some(a.lockTtl)));
          stream := stream + [GenerationEntry(a, queueLength)];
          return RequestedReply(a.entryId, queueLength);
        } else {
          return InProgressReply(queueLength);
        }
      } else {
        return UnavailableReply(queueLength);
      }
    }

    /** `_parse_lua_result`: fill a dictionary pair by pair; an odd-length reply fails on its last key. */
    static method ParseLuaResult(result: seq<Reply>) returns (r: Result<map<Reply, Reply>, ParseError>)
      ensures r == ParseReply(result)
    {
      var d: map<Reply, Reply> := map[];
      var i := 0;
      while i < |result|
        invariant 0 <= i <= |result| && i % 2 == 0
        invariant d == Pairs(result[..i])
        decreases |result| - i
      {
        if i + 1 >= |result| {
          return Failure(IndexError);
        }
        assert result[..i + 2] == result[..i] + [result[i], result[i + 1]];
        PairsAppend(result[..i], result[i], result[i + 1]);
        d := d[result[i] := result[i + 1]];
        i := i + 2;
      }
      assert result[..i] == result;
      r := Success(d);
    }

    /**
     * `_atomic_consume_hash_with_retry`: the bounded retry loop; the delays
     * slept are returned as their kinds. It is the run `RetryFrom` describes,
     * whose properties are the lemmas of `HashReservation`.
     */
    method ConsumeHashWithRetry(maxRetries: int, env: Env) returns (r: RetryResult, delays: seq<DelayKind>)
      modifies this`queue, this`lock, this`stream
      ensures var run := RetryFrom(old(Snapshot()), Config(), env, 0, maxRetries);
              r == run.result && delays == run.delays && Snapshot() == run.store
    {
      ghost var full := RetryFrom(Snapshot(), Config(), env, 0, maxRetries);
      var attempt: nat := 0;
      delays := [];
      while attempt < maxRetries
        invariant var run := RetryFrom(Snapshot(), Config(), env, attempt, maxRetries);
                  run.result == full.result && delays + run.delays == full.delays && run.store == full.store
        decreases maxRetries - attempt
      {
        ghost var before := Snapshot();
        var step := RunAttempt(attempt, env);
        match step {
          case Acquired(h) =>
            r := Token(h);
            return;
          case Retry(kind) =>
            if attempt < maxRetries - 1 {
              delays := delays + [kind];
            }
          case Raise(e) =>
            if attempt < maxRetries - 1 {
              delays := delays + [ErrorDelay];
            } else {
              r := Raised(e);
              return;
            }
        }
        attempt := attempt + 1;
      }
      r := NoToken;
    }

    /** One attempt of the retry loop: a failing store call raises, otherwise the script runs and its reply is parsed and classified. */
    method RunAttempt(attempt: nat, env: Env) returns (step: Step)
      modifies this`queue, this`lock, this`stream
      ensures (Snapshot(), step) == Attempt(old(Snapshot()), Config(), env, attempt)
    {
      if env.faultAt(attempt) {
        step := Raise(StoreUnreachable);
      } else {
        var reply := AtomicCheckConsume(ArgsAt(Config(), env, attempt));
        var parsed := ParseLuaResult(reply);
        step := Classify(parsed);
      }
    }

    /** `_return_hash_to_queue`: push a non-empty token back to the front; a failing push is swallowed. */
    method ReturnHashToQueue(hashValue: Option<string>, pushFails: bool)
      modifies this`queue
      ensures queue == if hashValue.Some? && hashValue.value != "" && !pushFails
                       then [hashValue.value] + old(queue) else old(queue)
    {
      if hashValue.Some? && hashValue.value != "" {
        if !pushFails {
          queue := [hashValue.value] + queue;
        }
      }
    }

    /**
     * `create` as written: begin a transaction, reserve a token with
     * retries, insert, commit and refresh the row. On any failure after the
     * begin the transaction is rolled back; then a reserved non-empty token
     * is pushed back to the front of the queue and the same error is
     * returned. A refresh failure comes after the commit, so the rollback
     * undoes nothing and the committed token goes back to the queue as well.
     * A rollback that raises skips the push-back, and its own error is the
     * one returned.
     */
    method Create(text: Text, maxRetries: int, env: Env, faults: DbFaults) returns (r: Result<Text, RepoError>)
      requires Valid()
      modifies this`queue, this`lock, this`stream, this`texts
      ensures Valid()
      ensures faults.beginFails ==> r == Failure(DatabaseError) && Snapshot() == old(Snapshot()) && texts == old(texts)
      ensures !faults.beginFails ==>
                var run := RetryFrom(old(Snapshot()), Config(), env, 0, maxRetries);
                match run.result
                case Raised(e) => r == Failure(CreateError(e, faults)) && Snapshot() == run.store && texts == old(texts)
                case NoToken => r == Failure(CreateError(HashNotAcquired, faults)) && Snapshot() == run.store && texts == old(texts)
                case Token(h) =>
                  if h == "" then r == Failure(CreateError(HashNotAcquired, faults)) && Snapshot() == run.store && texts == old(texts)
                  else if !faults.commitFails && Insertable(old(texts), RowFor(text, h)) then
                    texts == old(texts)[h := RowFor(text, h)] &&
                    if !faults.refreshFails then
                      r == Success(FromModel(RowFor(text, h))) && Snapshot() == run.store
                    else
                      r == Failure(DatabaseError) && Snapshot() == run.store.(queue := Compensated(run.store.queue, h, faults))
                  else
                    r == Failure(DatabaseError) && texts == old(texts) &&
                    Snapshot() == run.store.(queue := Compensated(run.store.queue, h, faults))
      ensures r.Success? ==> old(queue) != [] && r.value.hashValue == Some(old(queue)[0]) &&
                             queue == old(queue)[1..] && r.value == text.(hashValue := Some(old(queue)[0])) &&
                             texts == old(texts)[old(queue)[0] := RowFor(text, old(queue)[0])]
      ensures r.Failure? && !faults.refreshFails ==> texts == old(texts)
      ensures r.Failure? && !faults.rollbackFails && !faults.pushBackFails && (old(queue) == [] || old(queue)[0] != "") ==>
                queue == old(queue)
      ensures r.Failure? && !faults.beginFails && faults.rollbackFails &&
              RetryFrom(old(Snapshot()), Config(), env, 0, maxRetries).result.Token? ==>
                old(queue) != [] && queue == old(queue)[1..]
      ensures r.Failure? && texts != old(texts) ==>
                faults.refreshFails && old(queue) != [] &&
                texts == old(texts)[old(queue)[0] := RowFor(text, old(queue)[0])] &&
                (!faults.rollbackFails && !faults.pushBackFails ==> queue == old(queue) && queue[0] in texts)
    {
      ghost var start := Snapshot();
      RetryTokenIsHead(start, Config(), env, 0, maxRetries);
      var consumed: Option<string> := None;
      var started := false;
      var error: RepoError;
      if faults.beginFails {
        error := DatabaseError;
      } else {
        started := true;
        var res, _ := ConsumeHashWithRetry(maxRetries, env);
        match res {
          case Raised(e) =>
            error := e;
          case NoToken =>
            error := HashNotAcquired;
          case Token(h) =>
            consumed := Some(h);
            if h == "" {
              error := HashNotAcquired;
            } else {
              var row := RowFor(text, h);
              if !faults.commitFails && Insertable(texts, row) {
                texts := texts[h := row];
                if !faults.refreshFails {
                  return Success(FromModel(row));
                }
              }
              error := DatabaseError;
            }
        }
      }
      // Compensation: the rollback discards an uncommitted row; if it
      // raises, nothing else runs. Otherwise a truthy token goes back to the
      // front of the queue.
      if started && faults.rollbackFails {
        error := DatabaseError;
      } else if consumed.Some? && consumed.value != "" {
        ReturnHashToQueue(consumed, faults.pushBackFails);
      }
      r := Failure(error);
    }

    /**
     * `create` corrected: once the commit has gone through, the text exists
     * and its token is spent, so a failing refresh of the row (which only
     * reloads what was just written) neither fails the request nor returns
     * the token. The compensations are independent: a rollback that raises
     * is logged, the token is still pushed back and the original error is
     * the one returned.
     */
    method CreateCorrected(text: Text, maxRetries: int, env: Env, faults: DbFaults) returns (r: Result<Text, RepoError>)
      requires Valid()
      modifies this`queue, this`lock, this`stream, this`texts
      ensures Valid()
      ensures r.Success? <==>
                !faults.beginFails && !faults.commitFails &&
                var run := RetryFrom(old(Snapshot()), Config(), env, 0, maxRetries);
                run.result.Token? && run.result.token != "" && Insertable(old(texts), RowFor(text, run.result.token))
      ensures r.Success? ==> old(queue) != [] && r.value.hashValue == Some(old(queue)[0]) &&
                             queue == old(queue)[1..] && r.value == text.(hashValue := Some(old(queue)[0])) &&
                             texts == old(texts)[old(queue)[0] := RowFor(text, old(queue)[0])]
      ensures r.Failure? ==> texts == old(texts)
      ensures r.Failure? && !faults.pushBackFails && (old(queue) == [] || old(queue)[0] != "") ==> queue == old(queue)
    {
      r := Create(text, maxRetries, env, faults.(refreshFails := false, rollbackFails := false));
    }

    /** `health_check`: report queue length and lock state, and drop a lock that looks stuck. */
    method HealthCheck(reachable: bool) returns (h: Health)
      modifies this`lock
      ensures !reachable ==> h == Unhealthy && lock == old(lock)
      ensures reachable ==> lock == ReclaimStuck(old(lock))
      ensures reachable ==> h == Healthy(|queue|, old(lock).Some?,
                                         if old(lock).Some? then Some(RedisTtl(old(lock))) else None)
    {
      if !reachable {
        return Unhealthy;
      }
      var queueLength := |queue|;
      var lockExists := lock.Some?;
      var lockTtl: Option<int> := if lockExists then Some(RedisTtl(lock)) else None;
      if lockExists && RedisTtl(lock) < 5 {
        lock := None;
      }
      h := Healthy(queueLength, lockExists, lockTtl);
    }

    /** `_extend_lock_if_needed`: the client's TTL is never `None`, so the test is TTL < 10; expiring a missing key does nothing. */
    method ExtendLockIfNeeded()
      modifies this`lock
      ensures lock == Extended(old(lock))
    {
      var currentTtl := RedisTtl(lock);
      if currentTtl < 10 {
        if lock.Some? {
          lock := Some(lock.value.(ttl := Some(60)));
        }
      }
    }

    /** `get_active_text`: the row for the token, if it is still active at `now`. */
    function GetActiveText(hashValue: string, now: Instant): (r: Option<TextModel>)
      requires Valid()
      reads this
      ensures r.Some? <==> hashValue in texts && IsActive(texts[hashValue], now)
      ensures r.Some? ==> r.value == texts[hashValue] && r.value.hashValue == hashValue
    {
      if hashValue in texts && texts[hashValue].hashValue == hashValue && IsActive(texts[hashValue], now)
      then Some(texts[hashValue]) else None
    }

    /** `cleanup_expired_texts`: delete every expired text and return how many were deleted. */
    method CleanupExpiredTexts(now: Instant) returns (count: nat)
      requires Valid()
      modifies this`texts
      ensures Valid()
      ensures texts == old(texts) - ExpiredKeys(old(texts), now)
      ensures count == |ExpiredKeys(old(texts), now)|
      ensures forall h :: h in texts ==> IsActive(texts[h], now)
      ensures forall h :: h in old(texts) && IsActive(old(texts)[h], now) ==> h in texts && texts[h] == old(texts)[h]
    {
      var expired := ExpiredKeys(texts, now);
      var pending := expired;
      while pending != {}
        invariant pending <= expired
        invariant texts == old(texts) - (expired - pending)
        decreases |pending|
      {
        var h :| h in pending;
        texts := texts - {h};
        pending := pending - {h};
      }
      count := |expired|;
    }
  }
}
