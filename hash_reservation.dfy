/**
 * The hash-reservation queue of the text repository, as pure state
 * transitions: the atomic reservation script (pop a token, or request a
 * generation batch under a lock), the parsing of its flat reply, the
 * classification of that reply inside the retry loop, and the whole bounded
 * retry loop as a recursive specification with its properties.
 */
module HashReservation {
  import opened Wrappers

  /** The key of the generation lock, also written into each request message. */
  const LockKey: string := "hash_generation_lock"

  /** The lock TTL, in seconds, that the retry loop passes to the script. */
  const LockTtlSeconds: int := 60

  /** The generation lock: its holder and its remaining TTL (`None`: no expiry). */
  datatype Lock = Lock(owner: string, ttl: Option<nat>)

  /** A generation request as appended to the request stream. */
  datatype Message = Message(
    batchSize: string,
    requestingService: string,
    timestamp: int,
    requestId: string,
    lockKey: string,
    queueLength: int)

  /** A stream entry: the id the store assigned and the message. */
  datatype StreamEntry = StreamEntry(id: string, message: Message)

  /** The shared-store state the script touches: token list, lock, request stream. */
  datatype Store = Store(queue: seq<string>, lock: Option<Lock>, stream: seq<StreamEntry>)

  /** An element of a script reply: a bulk string or an integer. */
  datatype Reply = Bulk(s: string) | Int(n: int)

  /**
   * The script's arguments: threshold, lock TTL, batch size, service id and
   * request id as passed by the caller; `now` is the store's clock (`TIME`)
   * and `entryId` the id the stream assigns to an appended entry.
   */
  datatype ScriptArgs = ScriptArgs(
    threshold: int,
    lockTtl: int,
    batchSize: string,
    serviceId: string,
    requestId: string,
    now: int,
    entryId: string)

  function SuccessReply(token: string, queueLength: int): seq<Reply>
  {
    [Bulk("status"), Bulk("success"), Bulk("hash"), Bulk(token), Bulk("queue_length"), Int(queueLength)]
  }

  function RequestedReply(messageId: string, queueLength: int): seq<Reply>
  {
    [Bulk("status"), Bulk("generation_requested"), Bulk("message_id"), Bulk(messageId),
     Bulk("queue_length"), Int(queueLength), Bulk("lock_acquired"), Int(1)]
  }

  function InProgressReply(queueLength: int): seq<Reply>
  {
    [Bulk("status"), Bulk("generation_in_progress"), Bulk("queue_length"), Int(queueLength),
     Bulk("lock_acquired"), Int(0)]
  }

  function UnavailableReply(queueLength: int): seq<Reply>
  {
    [Bulk("status"), Bulk("temporarily_unavailable"), Bulk("queue_length"), Int(queueLength)]
  }

  /** The request message the script appends once it has taken the lock. */
  function GenerationEntry(a: ScriptArgs, queueLength: int): StreamEntry
  {
    StreamEntry(a.entryId, Message(a.batchSize, a.serviceId, a.now, a.requestId, LockKey, queueLength))
  }

  /**
   * The reservation script, one atomic step: pop the front token; on
   * success report it with the remaining length; otherwise, below the
   * threshold, take the lock if it is free (set-if-absent with TTL) and
   * append one generation request, or report that a generation is already
   * in progress; at or above the threshold report temporary unavailability.
   * The store rejects a non-positive expiry, hence the precondition.
   */
  function Reserve(st: Store, a: ScriptArgs): (out: (Store, seq<Reply>))
    requires a.lockTtl > 0
    ensures st.queue != [] ==> out.1 == SuccessReply(st.queue[0], |st.queue| - 1)
    ensures st.queue != [] ==> out.0.queue == st.queue[1..] && out.0.lock == st.lock && out.0.stream == st.stream
    ensures st.queue == [] ==> out.0.queue == []
    ensures st.lock.Some? ==> out.0.lock == st.lock
    ensures out.0.stream == st.stream ||
            (st.queue == [] && st.lock.None? && out.0.stream == st.stream + [GenerationEntry(a, 0)] &&
             out.0.lock == Some(Lock(a.serviceId, Some(a.lockTtl))))
  {
    var popped := st.queue != [];
    var queue := if popped then st.queue[1..] else st.queue;
    var queueLength := |queue|;
    if popped then
      (st.(queue := queue), SuccessReply(st.queue[0], queueLength))
    else if queueLength < a.threshold then
      if st.lock.None? then
        (Store(queue, Some(Lock(a.serviceId, Some(a.lockTtl))), st.stream + [GenerationEntry(a, queueLength)]),
         RequestedReply(a.entryId, queueLength))
      else
        (st, InProgressReply(queueLength))
    else
      (st, UnavailableReply(queueLength))
  }

  /**
   * The four outcomes of the script and when each occurs. Because the
   * length after a failed pop is 0, unavailability happens exactly when the
   * threshold is not positive.
   */
  lemma ReserveStatus(st: Store, a: ScriptArgs)
    requires a.lockTtl > 0
    ensures var reply := Reserve(st, a).1;
            |reply| >= 4 &&
            (reply[1] == Bulk("success") <==> st.queue != []) &&
            (reply[1] == Bulk("generation_requested") <==> st.queue == [] && 0 < a.threshold && st.lock.None?) &&
            (reply[1] == Bulk("generation_in_progress") <==> st.queue == [] && 0 < a.threshold && st.lock.Some?) &&
            (reply[1] == Bulk("temporarily_unavailable") <==> st.queue == [] && a.threshold <= 0)
  {
  }

  /** Below the threshold with a free lock: the queue stays empty, the lock is ours, one request is appended. */
  lemma ReserveRequestsGeneration(st: Store, a: ScriptArgs)
    requires a.lockTtl > 0 && st.queue == [] && 0 < a.threshold && st.lock.None?
    ensures Reserve(st, a) ==
            (Store([], Some(Lock(a.serviceId, Some(a.lockTtl))), st.stream + [GenerationEntry(a, 0)]),
             RequestedReply(a.entryId, 0))
  {
  }

  /** With an empty queue and the lock held, or at a non-positive threshold, nothing changes. */
  lemma ReserveLeavesStoreAlone(st: Store, a: ScriptArgs)
    requires a.lockTtl > 0 && st.queue == [] && (st.lock.Some? || a.threshold <= 0)
    ensures Reserve(st, a).0 == st
  {
  }

  /** Two calls on an empty queue with a free lock: the first requests generation, the second finds it in progress. */
  lemma ReserveTwiceOnEmpty(st: Store, a1: ScriptArgs, a2: ScriptArgs)
    requires a1.lockTtl > 0 && a2.lockTtl > 0
    requires st.queue == [] && st.lock.None? && 0 < a1.threshold && 0 < a2.threshold
    ensures var first := Reserve(st, a1);
            var second := Reserve(first.0, a2);
            first.1 == RequestedReply(a1.entryId, 0) && second.1 == InProgressReply(0) && second.0 == first.0
  {
  }

  /** Every script call of a sequence is given a lock TTL the store accepts. */
  predicate PositiveTtls(args: seq<ScriptArgs>)
  {
    forall i :: 0 <= i < |args| ==> args[i].lockTtl > 0
  }

  /** Serialized reservations: each call runs the script on the store the previous one left. */
  function ReserveAll(st: Store, args: seq<ScriptArgs>): (out: (Store, seq<seq<Reply>>))
    requires PositiveTtls(args)
    ensures |out.1| == |args|
    decreases |args|
  {
    if args == [] then (st, [])
    else
      var first := Reserve(st, args[0]);
      var rest := ReserveAll(first.0, args[1..]);
      (rest.0, [first.1] + rest.1)
  }

  /** Reservations while the lock is held on an empty queue all find a generation in progress and change nothing. */
  lemma {:induction false} ReserveAllInProgress(st: Store, args: seq<ScriptArgs>)
    requires PositiveTtls(args) && forall i :: 0 <= i < |args| ==> 0 < args[i].threshold
    requires st.queue == [] && st.lock.Some?
    ensures var out := ReserveAll(st, args);
            out.0 == st && forall i :: 0 <= i < |args| ==> out.1[i] == InProgressReply(0)
    decreases |args|
  {
    if args != [] {
      ReserveAllInProgress(st, args[1..]);
      var out := ReserveAll(st, args);
      forall i | 0 <= i < |args| ensures out.1[i] == InProgressReply(0) {
        if i > 0 {
          assert args[1..][i - 1] == args[i];
        }
      }
    }
  }

  /**
   * N serialized reservations against M < N queued tokens with a free lock:
   * the first M callers get the tokens in queue order, one each; the next
   * one requests a generation and takes the lock; every later caller finds
   * that generation in progress. The store ends with an empty queue, the
   * lock of the requesting caller and exactly one appended request.
   */
  lemma {:induction false} ReserveAllDrainsThenRequests(st: Store, args: seq<ScriptArgs>)
    requires PositiveTtls(args) && forall i :: 0 <= i < |args| ==> 0 < args[i].threshold
    requires st.lock.None? && |st.queue| < |args|
    ensures var out := ReserveAll(st, args);
            var m := |st.queue|;
            (forall i :: 0 <= i < m ==> out.1[i] == SuccessReply(st.queue[i], m - 1 - i)) &&
            out.1[m] == RequestedReply(args[m].entryId, 0) &&
            (forall i :: m < i < |args| ==> out.1[i] == InProgressReply(0)) &&
            out.0 == Store([], Some(Lock(args[m].serviceId, Some(args[m].lockTtl))), st.stream + [GenerationEntry(args[m], 0)])
    decreases |args|
  {
    var out := ReserveAll(st, args);
    var m := |st.queue|;
    var tail := args[1..];
    assert forall i :: 0 <= i < |tail| ==> tail[i] == args[i + 1];
    if st.queue == [] {
      ReserveRequestsGeneration(st, args[0]);
      var next := Store([], Some(Lock(args[0].serviceId, Some(args[0].lockTtl))), st.stream + [GenerationEntry(args[0], 0)]);
      ReserveAllInProgress(next, tail);
      forall i | 0 < i < |args| ensures out.1[i] == InProgressReply(0) {
        assert out.1[i] == ReserveAll(next, tail).1[i - 1];
      }
    } else {
      var next := st.(queue := st.queue[1..]);
      ReserveAllDrainsThenRequests(next, tail);
      var rest := ReserveAll(next, tail);
      assert out.1 == [SuccessReply(st.queue[0], m - 1)] + rest.1;
      forall i | 0 < i < m ensures out.1[i] == SuccessReply(st.queue[i], m - 1 - i) {
        assert out.1[i] == rest.1[i - 1] && next.queue[i - 1] == st.queue[i];
      }
      assert out.1[m] == rest.1[m - 1];
      forall i | m < i < |args| ensures out.1[i] == InProgressReply(0) {
        assert out.1[i] == rest.1[i - 1];
      }
    }
  }

  // ---------------------------------------------------------------------
  // Parsing the flat key/value reply

  /** The dictionary built from a flat list: element 2i maps to 2i+1, later keys overwriting earlier ones. */
  function Pairs(s: seq<Reply>): map<Reply, Reply>
    requires |s| % 2 == 0
    decreases |s|
  {
    if s == [] then map[] else Pairs(s[..|s| - 2])[s[|s| - 2] := s[|s| - 1]]
  }

  /** An odd-length reply makes the parser read past the end. */
  datatype ParseError = IndexError

  /** What `_parse_lua_result` produces. */
  function ParseReply(s: seq<Reply>): Result<map<Reply, Reply>, ParseError>
  {
    if |s| % 2 == 1 then Failure(IndexError) else Success(Pairs(s))
  }

  lemma PairsAppend(s: seq<Reply>, k: Reply, v: Reply)
    requires |s| % 2 == 0
    ensures Pairs(s + [k, v]) == Pairs(s)[k := v]
  {
    assert (s + [k, v])[..|s|] == s;
  }

  /** The parsed dictionary has exactly the elements at even positions as keys. */
  lemma {:induction false} PairsKeys(s: seq<Reply>, k: Reply)
    requires |s| % 2 == 0
    ensures k in Pairs(s) <==> exists j :: 0 <= j < |s| && j % 2 == 0 && s[j] == k
  {
    if s != [] {
      var p := s[..|s| - 2];
      PairsKeys(p, k);
      if k in Pairs(s) {
        if k == s[|s| - 2] {
          assert (|s| - 2) % 2 == 0;
        } else {
          var j :| 0 <= j < |p| && j % 2 == 0 && p[j] == k;
          assert s[j] == k;
        }
      }
      if exists j :: 0 <= j < |s| && j % 2 == 0 && s[j] == k {
        var j :| 0 <= j < |s| && j % 2 == 0 && s[j] == k;
        if j < |s| - 2 {
          assert p[j] == k;
        }
      }
    }
  }

  /** The value of a key is the element after its last occurrence at an even position. */
  lemma {:induction false} PairsLastWins(s: seq<Reply>, j: nat)
    requires |s| % 2 == 0 && j < |s| && j % 2 == 0
    requires forall i :: j < i < |s| && i % 2 == 0 ==> s[i] != s[j]
    ensures s[j] in Pairs(s) && Pairs(s)[s[j]] == s[j + 1]
  {
    if j < |s| - 2 {
      var p := s[..|s| - 2];
      assert s[|s| - 2] != s[j] by {
        assert (|s| - 2) % 2 == 0;
      }
      forall i | j < i < |p| && i % 2 == 0 ensures p[i] != p[j] {
        assert p[i] == s[i];
      }
      PairsLastWins(p, j);
    }
  }

  lemma Pairs4(a: Reply, b: Reply, c: Reply, d: Reply)
    ensures Pairs([a, b, c, d]) == map[a := b][c := d]
  {
    PairsAppend([], a, b);
    assert [a, b, c, d] == [a, b] + [c, d];
    PairsAppend([a, b], c, d);
  }

  lemma Pairs6(a: Reply, b: Reply, c: Reply, d: Reply, e: Reply, f: Reply)
    ensures Pairs([a, b, c, d, e, f]) == map[a := b][c := d][e := f]
  {
    Pairs4(a, b, c, d);
    assert [a, b, c, d, e, f] == [a, b, c, d] + [e, f];
    PairsAppend([a, b, c, d], e, f);
  }

  lemma Pairs8(a: Reply, b: Reply, c: Reply, d: Reply, e: Reply, f: Reply, g: Reply, h: Reply)
    ensures Pairs([a, b, c, d, e, f, g, h]) == map[a := b][c := d][e := f][g := h]
  {
    Pairs6(a, b, c, d, e, f);
    assert [a, b, c, d, e, f, g, h] == [a, b, c, d, e, f] + [g, h];
    PairsAppend([a, b, c, d, e, f], g, h);
  }

  // ---------------------------------------------------------------------
  // One attempt of the retry loop

  /** Which backoff formula a retry waits with (the durations themselves are not modelled). */
  datatype DelayKind = GenerationDelay | WaitDelay | BackoffDelay | ErrorDelay

  /** The exceptions of the repository's write path. */
  datatype RepoError =
    | StoreUnreachable       // the shared store could not be reached
    | ReplyMalformed         // odd-length reply
    | KeyMissing(key: string)
    | UnknownStatus(status: Reply)
    | HashNotAString         // a `hash` field that is not a bulk string
    | HashNotAcquired        // no usable token after all retries
    | DatabaseError          // begin or commit failed

  /** What one attempt decides: return a token, wait and retry, or raise. */
  datatype Step = Acquired(token: string) | Retry(delay: DelayKind) | Raise(error: RepoError)

  /**
   * The body of the retry loop after the script call: read `status`, return
   * `hash` on success, pick the delay kind for the three waiting statuses and
   * raise for anything else (a missing key raises as well).
   */
  function Classify(parsed: Result<map<Reply, Reply>, ParseError>): (step: Step)
    ensures parsed.Failure? ==> step == Raise(ReplyMalformed)
    ensures parsed.Success? && Bulk("status") !in parsed.value ==> step == Raise(KeyMissing("status"))
    ensures step.Acquired? ==>
              (parsed.Success? && Bulk("status") in parsed.value && Bulk("hash") in parsed.value &&
               parsed.value[Bulk("status")] == Bulk("success") && parsed.value[Bulk("hash")] == Bulk(step.token))
    ensures parsed.Success? && Bulk("status") in parsed.value &&
            parsed.value[Bulk("status")] !in {Bulk("success"), Bulk("generation_requested"),
                                              Bulk("generation_in_progress"), Bulk("temporarily_unavailable")}
            ==> step == Raise(UnknownStatus(parsed.value[Bulk("status")]))
  {
    match parsed
    case Failure(_) => Raise(ReplyMalformed)
    case Success(d) =>
      if Bulk("status") !in d then Raise(KeyMissing("status"))
      else
        var status := d[Bulk("status")];
        if status == Bulk("success") then
          if Bulk("hash") !in d then Raise(KeyMissing("hash"))
          else match d[Bulk("hash")]
            case Bulk(h) => Acquired(h)
            case Int(_) => Raise(HashNotAString)
        else if status == Bulk("generation_requested") then Retry(GenerationDelay)
        else if status == Bulk("generation_in_progress") then Retry(WaitDelay)
        else if status == Bulk("temporarily_unavailable") then Retry(BackoffDelay)
        else Raise(UnknownStatus(status))
  }

  /** The step a script reply leads to, by the state the script ran on. */
  function ScriptStep(st: Store, threshold: int): Step
  {
    if st.queue != [] then Acquired(st.queue[0])
    else if 0 < threshold then (if st.lock.None? then Retry(GenerationDelay) else Retry(WaitDelay))
    else Retry(BackoffDelay)
  }

  /** Every reply of the script parses and classifies without raising, to the step its outcome selects. */
  lemma ClassifyScriptReply(st: Store, a: ScriptArgs)
    requires a.lockTtl > 0
    ensures Classify(ParseReply(Reserve(st, a).1)) == ScriptStep(st, a.threshold)
  {
    if st.queue != [] {
      Pairs6(Bulk("status"), Bulk("success"), Bulk("hash"), Bulk(st.queue[0]), Bulk("queue_length"), Int(|st.queue| - 1));
    } else if 0 < a.threshold && st.lock.None? {
      Pairs8(Bulk("status"), Bulk("generation_requested"), Bulk("message_id"), Bulk(a.entryId),
             Bulk("queue_length"), Int(0), Bulk("lock_acquired"), Int(1));
    } else if 0 < a.threshold {
      Pairs6(Bulk("status"), Bulk("generation_in_progress"), Bulk("queue_length"), Int(0),
             Bulk("lock_acquired"), Int(0));
    } else {
      Pairs4(Bulk("status"), Bulk("temporarily_unavailable"), Bulk("queue_length"), Int(0));
    }
  }

  // ---------------------------------------------------------------------
  // The bounded retry loop

  /**
   * The environment of a run of the retry loop, by attempt number: whether
   * the store call fails, the fresh request id, the store's clock and the
   * stream id an appended entry receives.
   */
  datatype Env = Env(
    faultAt: nat -> bool,
    requestId: nat -> string,
    clock: nat -> int,
    entryId: nat -> string)

  /** The repository's fixed configuration. */
  datatype Settings = Settings(threshold: int, batchSize: string, serviceId: string)

  /** The outcome of the retry loop: a token, `None` after the last attempt, or the last attempt's exception. */
  datatype RetryResult = Token(token: string) | NoToken | Raised(error: RepoError)

  /** A whole run: its outcome, the delays slept, the number of attempts and the final store. */
  datatype RetryRun = RetryRun(result: RetryResult, delays: seq<DelayKind>, attempts: nat, store: Store)

  function ArgsAt(cfg: Settings, env: Env, attempt: nat): (a: ScriptArgs)
    ensures a.lockTtl > 0
  {
    ScriptArgs(cfg.threshold, LockTtlSeconds, cfg.batchSize, cfg.serviceId,
               env.requestId(attempt), env.clock(attempt), env.entryId(attempt))
  }

  /** One attempt: a failing store call raises and changes nothing; otherwise the script runs and its reply is classified. */
  function Attempt(st: Store, cfg: Settings, env: Env, attempt: nat): (Store, Step)
  {
    if env.faultAt(attempt) then (st, Raise(StoreUnreachable))
    else
      var out := Reserve(st, ArgsAt(cfg, env, attempt));
      (out.0, Classify(ParseReply(out.1)))
  }

  /**
   * The retry loop from attempt `attempt` on, at most `maxRetries` attempts
   * in all: a token ends the run; a waiting status or an exception sleeps
   * (with the delay its kind selects, the error delay for exceptions) unless
   * it was the last attempt; an exception on the last attempt is re-raised;
   * a waiting status on the last attempt ends with `None`.
   */
  function RetryFrom(st: Store, cfg: Settings, env: Env, attempt: nat, maxRetries: int): RetryRun
    decreases maxRetries - attempt
  {
    if attempt >= maxRetries then RetryRun(NoToken, [], 0, st)
    else
      var out := Attempt(st, cfg, env, attempt);
      var last := attempt == maxRetries - 1;
      match out.1
      case Acquired(h) => RetryRun(Token(h), [], 1, out.0)
      case Retry(kind) =>
        var rest := RetryFrom(out.0, cfg, env, attempt + 1, maxRetries);
        RetryRun(rest.result, (if last then [] else [kind]) + rest.delays, rest.attempts + 1, rest.store)
      case Raise(e) =>
        if last then RetryRun(Raised(e), [], 1, out.0)
        else
          var rest := RetryFrom(out.0, cfg, env, attempt + 1, maxRetries);
          RetryRun(rest.result, [ErrorDelay] + rest.delays, rest.attempts + 1, rest.store)
  }

  /** The store after an attempt, and the step, in terms of the script alone. */
  lemma AttemptStep(st: Store, cfg: Settings, env: Env, attempt: nat)
    ensures var out := Attempt(st, cfg, env, attempt);
            (env.faultAt(attempt) ==> out == (st, Raise(StoreUnreachable))) &&
            (!env.faultAt(attempt) ==> out.0 == Reserve(st, ArgsAt(cfg, env, attempt)).0 &&
                                       out.1 == ScriptStep(st, cfg.threshold))
  {
    if !env.faultAt(attempt) {
      ClassifyScriptReply(st, ArgsAt(cfg, env, attempt));
    }
  }

  /** No attempt at all when `maxRetries` is not positive. */
  lemma RetryWithoutAttempts(st: Store, cfg: Settings, env: Env, maxRetries: int)
    requires maxRetries <= 0
    ensures RetryFrom(st, cfg, env, 0, maxRetries) == RetryRun(NoToken, [], 0, st)
  {
  }

  /**
   * The number of attempts is bounded by what is left, the run stops early
   * only with a token, and there is one sleep less than there are attempts
   * (no sleep after the final attempt). An exception escapes exactly when
   * the run reaches the last attempt without a token and that store call
   * fails; every earlier failing call is followed by the error delay, and
   * the error delay follows nothing else.
   */
  lemma {:induction false} RetryAttempts(st: Store, cfg: Settings, env: Env, attempt: nat, maxRetries: int)
    requires attempt < maxRetries
    ensures var run := RetryFrom(st, cfg, env, attempt, maxRetries);
            1 <= run.attempts <= maxRetries - attempt &&
            |run.delays| == run.attempts - 1 &&
            (run.result.Token? || run.attempts == maxRetries - attempt) &&
            (run.result.Raised? <==> !run.result.Token? && env.faultAt(maxRetries - 1)) &&
            (run.result.Raised? ==> run.result == Raised(StoreUnreachable)) &&
            (forall i :: 0 <= i < |run.delays| ==> (run.delays[i] == ErrorDelay <==> env.faultAt(attempt + i)))
    decreases maxRetries - attempt
  {
    AttemptStep(st, cfg, env, attempt);
    if attempt < maxRetries - 1 {
      var out := Attempt(st, cfg, env, attempt);
      RetryAttempts(out.0, cfg, env, attempt + 1, maxRetries);
      var run := RetryFrom(st, cfg, env, attempt, maxRetries);
      var rest := RetryFrom(out.0, cfg, env, attempt + 1, maxRetries);
      if !out.1.Acquired? {
        var first := if out.1.Retry? then out.1.delay else ErrorDelay;
        assert run.delays == [first] + rest.delays;
        forall i | 0 <= i < |run.delays|
          ensures run.delays[i] == ErrorDelay <==> env.faultAt(attempt + i)
        {
          if i > 0 {
            assert run.delays[i] == rest.delays[i - 1];
            assert attempt + i == (attempt + 1) + (i - 1);
          }
        }
      }
    }
  }

  /**
   * A token comes only from the head of the queue, and then the store is
   * the input store with that token popped and nothing else changed; a run
   * without a token leaves the queue as it was.
   */
  lemma {:induction false} RetryTokenIsHead(st: Store, cfg: Settings, env: Env, attempt: nat, maxRetries: int)
    ensures var run := RetryFrom(st, cfg, env, attempt, maxRetries);
            (run.result.Token? ==> st.queue != [] && run.result.token == st.queue[0] &&
                                   run.store == st.(queue := st.queue[1..])) &&
            (!run.result.Token? ==> run.store.queue == st.queue)
    decreases maxRetries - attempt
  {
    if attempt < maxRetries {
      AttemptStep(st, cfg, env, attempt);
      var out := Attempt(st, cfg, env, attempt);
      RetryTokenIsHead(out.0, cfg, env, attempt + 1, maxRetries);
    }
  }

  /** With tokens in the queue, the first attempt whose store call goes through returns the head token. */
  lemma {:induction false} RetryGetsHead(st: Store, cfg: Settings, env: Env, attempt: nat, maxRetries: int, k: nat)
    requires st.queue != [] && attempt <= k < maxRetries && !env.faultAt(k)
    ensures RetryFrom(st, cfg, env, attempt, maxRetries).result == Token(st.queue[0])
    decreases k - attempt
  {
    AttemptStep(st, cfg, env, attempt);
    if env.faultAt(attempt) {
      RetryGetsHead(st, cfg, env, attempt + 1, maxRetries, k);
    }
  }

  /**
   * On an empty queue no token is returned and the queue stays empty. If
   * the lock is already held, or the threshold is not positive, nothing
   * changes at all; otherwise at most one generation request is appended.
   */
  lemma {:induction false} RetryOnEmptyQueue(st: Store, cfg: Settings, env: Env, attempt: nat, maxRetries: int)
    requires st.queue == []
    ensures var run := RetryFrom(st, cfg, env, attempt, maxRetries);
            !run.result.Token? && run.store.queue == [] &&
            (st.lock.Some? || cfg.threshold <= 0 ==> run.store == st) &&
            |st.stream| <= |run.store.stream| <= |st.stream| + 1 &&
            run.store.stream[..|st.stream|] == st.stream
    decreases maxRetries - attempt
  {
    if attempt < maxRetries {
      AttemptStep(st, cfg, env, attempt);
      var out := Attempt(st, cfg, env, attempt);
      RetryOnEmptyQueue(out.0, cfg, env, attempt + 1, maxRetries);
      if !env.faultAt(attempt) && st.lock.None? && 0 < cfg.threshold {
        ReserveRequestsGeneration(st, ArgsAt(cfg, env, attempt));
      }
    }
  }

  /** On an empty queue a run sleeps the generation delay at most once, and never when the lock was already held. */
  lemma {:induction false} RetryGenerationDelays(st: Store, cfg: Settings, env: Env, attempt: nat, maxRetries: int)
    requires st.queue == []
    ensures var run := RetryFrom(st, cfg, env, attempt, maxRetries);
            multiset(run.delays)[GenerationDelay] <= (if st.lock.None? && 0 < cfg.threshold then 1 else 0)
    decreases maxRetries - attempt
  {
    if attempt < maxRetries {
      AttemptStep(st, cfg, env, attempt);
      var out := Attempt(st, cfg, env, attempt);
      RetryGenerationDelays(out.0, cfg, env, attempt + 1, maxRetries);
      if !env.faultAt(attempt) && st.lock.None? && 0 < cfg.threshold {
        ReserveRequestsGeneration(st, ArgsAt(cfg, env, attempt));
      }
    }
  }

  /**
   * On an empty queue with a free lock and a positive threshold, one store
   * call that goes through is enough: the run ends holding the lock for the
   * service, with exactly one generation request, from this service, appended.
   */
  lemma {:induction false} RetryRequestsGeneration(st: Store, cfg: Settings, env: Env, attempt: nat, maxRetries: int, k: nat)
    requires st.queue == [] && st.lock.None? && 0 < cfg.threshold
    requires attempt <= k < maxRetries && !env.faultAt(k)
    ensures var run := RetryFrom(st, cfg, env, attempt, maxRetries);
            run.store.lock == Some(Lock(cfg.serviceId, Some(LockTtlSeconds))) &&
            |run.store.stream| == |st.stream| + 1 && run.store.stream[..|st.stream|] == st.stream &&
            run.store.stream[|st.stream|].message.requestingService == cfg.serviceId
    decreases k - attempt
  {
    AttemptStep(st, cfg, env, attempt);
    if env.faultAt(attempt) {
      RetryRequestsGeneration(st, cfg, env, attempt + 1, maxRetries, k);
    } else {
      var a := ArgsAt(cfg, env, attempt);
      ReserveRequestsGeneration(st, a);
      var next := Store([], Some(Lock(cfg.serviceId, Some(LockTtlSeconds))), st.stream + [GenerationEntry(a, 0)]);
      assert Attempt(st, cfg, env, attempt) == (next, Retry(GenerationDelay));
      RetryOnEmptyQueue(next, cfg, env, attempt + 1, maxRetries);
      assert RetryFrom(st, cfg, env, attempt, maxRetries).store == RetryFrom(next, cfg, env, attempt + 1, maxRetries).store;
    }
  }
}
