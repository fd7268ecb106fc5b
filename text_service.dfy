/**
 * The service that orchestrates the read and write paths over the
 * repository, the cache and the blob store: the cache-aside read with a
 * recheck and a popularity-dependent TTL, and creation with compensation
 * of the uploaded blob.
 */
module TextService {
  import opened Wrappers
  import opened S3Storage
  import opened TextEntity
  import opened HashReservation
  import opened TextRepository
  import opened TextCache

  /** What `get_text` returns: the pair and whether it came from the cache. */
  datatype Served = Served(metadata: TextModel, content: string, fromCache: bool)

  /** Why creation failed; every cause is wrapped in one "failed to create text" error. */
  datatype CreateCause = UploadFailed(storage: StorageError) | ReservationFailed(repo: RepoError)

  datatype ServiceError =
    | Location(location: LocationError)
    | Storage(storage: StorageError)
    | CacheWriteRefused
    | CreateFailed(cause: CreateCause)

  /** The collaborators' failures on the create path. */
  datatype CreateFaults = CreateFaults(uploadFails: bool, db: DbFaults, deleteFails: bool)

  /** The retry budget `create_text` leaves at the repository's default. */
  const CreateRetries := 5

  class Service {
    const repo: Repository
    const cache: CacheStore<TextModel>
    const storage: BlobStore
    const defaultTtl: int
    const popularTtl: int
    const popularThreshold: int
    /** The bucket name `get_text_content` compares against (read from the environment). */
    const bucketName: string

    ghost predicate Valid()
      reads this, repo
    {
      repo.Valid()
    }

    constructor (repo: Repository, cache: CacheStore<TextModel>, storage: BlobStore,
                 defaultTtl: int, popularTtl: int, popularThreshold: int, bucketName: string)
      ensures this.repo == repo && this.cache == cache && this.storage == storage
      ensures this.defaultTtl == defaultTtl && this.popularTtl == popularTtl
      ensures this.popularThreshold == popularThreshold && this.bucketName == bucketName
    {
      this.repo := repo;
      this.cache := cache;
      this.storage := storage;
      this.defaultTtl := defaultTtl;
      this.popularTtl := popularTtl;
      this.popularThreshold := popularThreshold;
      this.bucketName := bucketName;
    }

    /** `_get_dynamic_ttl`: the popular TTL for a popular token, the default one otherwise or when the popularity store fails. */
    function DynamicTtl(h: string, popularityReachable: bool): (t: int)
      reads cache
      ensures cache.IsPopular(h, popularThreshold, popularityReachable) ==> t == popularTtl
      ensures !cache.IsPopular(h, popularThreshold, popularityReachable) ==> t == defaultTtl
    {
      if cache.IsPopular(h, popularThreshold, popularityReachable) then popularTtl else defaultTtl
    }

    /** Without a reachable popularity store, or for a token never read, the TTL is the default one. */
    lemma DynamicTtlDefaults(h: string, popularityReachable: bool)
      requires !popularityReachable || h !in cache.popularity
      ensures DynamicTtl(h, popularityReachable) == defaultTtl
    {
    }

    /** A token whose score reached a positive threshold is cached for the popular TTL. */
    lemma DynamicTtlForPopular(h: string)
      requires popularThreshold > 0 && Score(cache.popularity, h) >= popularThreshold
      ensures DynamicTtl(h, true) == popularTtl
    {
    }

    /**
     * `get_text_content`: strip the scheme, split once, insist on the
     * configured bucket, then read the key from the blob store.
     */
    function GetTextContent(location: string, blobFails: bool): (r: Result<string, ServiceError>)
      reads storage
      ensures ParseLocation(location, bucketName).Failure? ==>
                r == Failure(Location(ParseLocation(location, bucketName).error))
      ensures r.Success? <==> ParseLocation(location, bucketName).Success? && !blobFails &&
                              ParseLocation(location, bucketName).value in storage.objects
      ensures r.Success? ==> StripScheme(location) == bucketName + "/" + ParseLocation(location, bucketName).value &&
                             r.value == storage.objects[ParseLocation(location, bucketName).value]
    {
      match ParseLocation(location, bucketName)
      case Failure(e) => Failure(Location(e))
      case Success(key) =>
        match storage.GetTextContent(key, blobFails)
        case Failure(e) => Failure(Storage(e))
        case Success(c) => Success(c)
    }

    /**
     * `get_full_text`: nothing for a token without an active text; otherwise
     * the row and the content read from its location (parsed against the
     * blob store's own bucket).
     */
    function GetFullText(h: string, now: Instant, blobFails: bool): (r: Result<Option<(TextModel, string)>, ServiceError>)
      requires Valid()
      reads this, repo, storage
      ensures repo.GetActiveText(h, now).None? ==> r == Success(None)
      ensures r.Success? && r.value.Some? ==>
                h in repo.texts && IsActive(repo.texts[h], now) && r.value.value.0 == repo.texts[h] &&
                ParseLocation(repo.texts[h].location, storage.bucket).Success? &&
                ParseLocation(repo.texts[h].location, storage.bucket).value in storage.objects &&
                r.value.value.1 == storage.objects[ParseLocation(repo.texts[h].location, storage.bucket).value]
      ensures (repo.GetActiveText(h, now).Some? && !blobFails &&
               ParseLocation(repo.texts[h].location, storage.bucket).Success? &&
               ParseLocation(repo.texts[h].location, storage.bucket).value in storage.objects) ==> r.Success? && r.value.Some?
    {
      match repo.GetActiveText(h, now)
      case None => Success(None)
      case Some(row) =>
        match ParseLocation(row.location, storage.bucket)
        case Failure(e) => Failure(Location(e))
        case Success(key) =>
          match storage.GetTextContent(key, blobFails)
          case Failure(e) => Failure(Storage(e))
          case Success(c) => Success(Some((row, c)))
    }

    /** `get_text_with_content`: `get_full_text` with every failure turned into nothing. */
    function GetTextWithContent(h: string, now: Instant, blobFails: bool): (r: Option<(TextModel, string)>)
      requires Valid()
      reads this, repo, storage
      ensures r.Some? <==> GetFullText(h, now, blobFails).Success? && GetFullText(h, now, blobFails).value.Some?
      ensures r.Some? ==> r == GetFullText(h, now, blobFails).value
    {
      match GetFullText(h, now, blobFails)
      case Failure(_) => None
      case Success(x) => x
    }

    /**
     * `get_text`: a cache hit is served as is; otherwise, after a second
     * look at the cache, the text is fetched, the TTL chosen by popularity
     * and both entries written before the text is served.
     */
    method GetText(h: string, now: Instant, blobFails: bool, popularityReachable: bool)
      returns (r: Result<Option<Served>, ServiceError>)
      requires Valid()
      modifies cache
      ensures old(cache.Lookup(h)).Some? ==>
                r == Success(Some(Served(old(cache.Lookup(h)).value.0, old(cache.Lookup(h)).value.1, true))) &&
                cache.meta == old(cache.meta) && cache.content == old(cache.content) &&
                cache.popularity == Bumped(old(cache.popularity), h) && cache.popularityTtl == Some(PopularityTtl)
      ensures old(cache.Lookup(h)).None? ==>
                cache.popularity == old(cache.popularity) && cache.popularityTtl == old(cache.popularityTtl)
      ensures old(cache.Lookup(h)).None? && GetTextWithContent(h, now, blobFails).None? ==>
                r == Success(None) && cache.meta == old(cache.meta) && cache.content == old(cache.content)
      ensures old(cache.Lookup(h)).None? && GetTextWithContent(h, now, blobFails).Some? ==>
                var pair := GetTextWithContent(h, now, blobFails).value;
                var t := EffectiveTtl(Some(old(DynamicTtl(h, popularityReachable))), cache.defaultTtl);
                if t > 0 then
                  r == Success(Some(Served(pair.0, pair.1, false))) &&
                  cache.meta == old(cache.meta)[h := Entry(pair.0, t)] &&
                  cache.content == old(cache.content)[h := Entry(pair.1, t)]
                else
                  r == Failure(CacheWriteRefused) && cache.meta == old(cache.meta) && cache.content == old(cache.content)
    {
      var cached := cache.GetCompleteText(h);
      if cached.Some? {
        return Success(Some(Served(cached.value.0, cached.value.1, true)));
      }
      // The recheck guards against a concurrent writer; run on its own it
      // sees the same miss.
      cached := cache.GetCompleteText(h);
      assert cached.None?;
      var response := GetTextWithContent(h, now, blobFails);
      if response.None? {
        return Success(None);
      }
      var ttl := DynamicTtl(h, popularityReachable);
      var ok := cache.CacheCompleteText(h, response.value.0, response.value.1, Some(ttl));
      if !ok {
        return Failure(CacheWriteRefused);
      }
      r := Success(Some(Served(response.value.0, response.value.1, false)));
    }

    /**
     * `create_text`: upload the body, build the entity on its location and
     * let the repository reserve a token and insert the row. When a step
     * after the upload fails, the uploaded object is deleted if its location
     * parses (a failing delete is ignored) and the failure is returned
     * wrapped. This is the chain as written, over the repository's `create`
     * as written: when its refresh fails after the commit, the row stays
     * live while its body is deleted here.
     */
    method CreateText(text: string, expirationDate: Option<Instant>, fileId: string, entityId: string,
                      now: Instant, env: Env, faults: CreateFaults)
      returns (r: Result<Text, ServiceError>)
      requires Valid()
      modifies storage`objects, repo`queue, repo`lock, repo`stream, repo`texts
      ensures Valid()
      ensures faults.uploadFails ==>
                r == Failure(CreateFailed(UploadFailed(ClientError))) && storage.objects == old(storage.objects) &&
                repo.Snapshot() == old(repo.Snapshot()) && repo.texts == old(repo.texts)
      ensures r.Success? ==>
                var entity := TextEntity.Create(FormatLocation(storage.bucket, FileName(fileId)), expirationDate, entityId, now);
                old(repo.queue) != [] && repo.queue == old(repo.queue)[1..] &&
                r.value == entity.(hashValue := Some(old(repo.queue)[0])) &&
                repo.texts == old(repo.texts)[old(repo.queue)[0] := RowFor(entity, old(repo.queue)[0])] &&
                storage.objects == old(storage.objects)[FileName(fileId) := text]
      ensures !faults.uploadFails && r.Failure? ==>
                r.error.CreateFailed? && r.error.cause.ReservationFailed? &&
                storage.objects == match ParseLocation(FormatLocation(storage.bucket, FileName(fileId)), storage.bucket)
                                   case Success(key) =>
                                     if faults.deleteFails then old(storage.objects)[FileName(fileId) := text]
                                     else old(storage.objects)[FileName(fileId) := text] - {key}
                                   case Failure(_) => old(storage.objects)[FileName(fileId) := text]
      ensures r.Failure? && !faults.db.refreshFails ==> repo.texts == old(repo.texts)
      ensures r.Failure? && !faults.db.rollbackFails && !faults.db.pushBackFails &&
              (old(repo.queue) == [] || old(repo.queue)[0] != "") ==>
                repo.queue == old(repo.queue)
      ensures r.Failure? && !faults.uploadFails && !faults.deleteFails && '/' !in storage.bucket && ':' !in storage.bucket && ':' !in fileId ==>
                storage.objects == old(storage.objects) - {FileName(fileId)}
      ensures r.Failure? && repo.texts != old(repo.texts) ==>
                faults.db.refreshFails && old(repo.queue) != [] &&
                var h := old(repo.queue)[0];
                h in repo.texts && repo.texts[h].location == FormatLocation(storage.bucket, FileName(fileId)) &&
                (!faults.deleteFails && '/' !in storage.bucket && ':' !in storage.bucket && ':' !in fileId ==>
                   ParseLocation(repo.texts[h].location, storage.bucket) == Success(FileName(fileId)) &&
                   FileName(fileId) !in storage.objects)
    {
      var location := storage.UploadText(text, None, fileId, faults.uploadFails);
      if location.Failure? {
        return Failure(CreateFailed(UploadFailed(location.error)));
      }
      var entity := TextEntity.Create(location.value, expirationDate, entityId, now);
      var created := repo.Create(entity, CreateRetries, env, faults.db);
      if created.Success? {
        return Success(created.value);
      }
      // Compensation: the location is never empty, so the cleanup always runs.
      match ParseLocation(location.value, storage.bucket) {
        case Success(key) =>
          var _ := storage.DeleteText(key, faults.deleteFails);
        case Failure(_) =>
      }
      if '/' !in storage.bucket && ':' !in storage.bucket && ':' !in fileId {
        UploadLocationRoundTrip(storage.bucket, fileId);
      }
      r := Failure(CreateFailed(ReservationFailed(created.error)));
    }

    /**
     * `create_text` over the corrected repository `create`: a failure is
     * reported only while no row is committed, so deleting the uploaded
     * body never leaves a live text without one, and a raising rollback no
     * longer keeps the token from going back.
     */
    method CreateTextCorrected(text: string, expirationDate: Option<Instant>, fileId: string, entityId: string,
                               now: Instant, env: Env, faults: CreateFaults)
      returns (r: Result<Text, ServiceError>)
      requires Valid()
      modifies storage`objects, repo`queue, repo`lock, repo`stream, repo`texts
      ensures Valid()
      ensures faults.uploadFails ==>
                r == Failure(CreateFailed(UploadFailed(ClientError))) && storage.objects == old(storage.objects) &&
                repo.Snapshot() == old(repo.Snapshot()) && repo.texts == old(repo.texts)
      ensures r.Success? ==>
                var entity := TextEntity.Create(FormatLocation(storage.bucket, FileName(fileId)), expirationDate, entityId, now);
                old(repo.queue) != [] && repo.queue == old(repo.queue)[1..] &&
                r.value == entity.(hashValue := Some(old(repo.queue)[0])) &&
                repo.texts == old(repo.texts)[old(repo.queue)[0] := RowFor(entity, old(repo.queue)[0])] &&
                storage.objects == old(storage.objects)[FileName(fileId) := text]
      ensures r.Failure? ==> repo.texts == old(repo.texts)
      ensures r.Failure? && !faults.db.pushBackFails && (old(repo.queue) == [] || old(repo.queue)[0] != "") ==>
                repo.queue == old(repo.queue)
      ensures r.Failure? && !faults.uploadFails && !faults.deleteFails && '/' !in storage.bucket && ':' !in storage.bucket && ':' !in fileId ==>
                storage.objects == old(storage.objects) - {FileName(fileId)}
    {
      r := CreateText(text, expirationDate, fileId, entityId, now, env,
                      faults.(db := faults.db.(refreshFails := false, rollbackFails := false)));
    }
  }
}
