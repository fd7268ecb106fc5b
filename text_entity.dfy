/**
 * The text entity of the domain layer, the database row it is built from,
 * and its dictionary (de)serialisation used by the cache.
 *
 * Datetimes are instants (`int`); a serialised datetime is the tagged value
 * `Time(t)`, standing for its ISO-8601 text.
 */
module TextEntity {
  import opened Wrappers

  type Instant = int

  /** The domain entity: `hash_value` is absent until the repository assigns a token. */
  datatype Text = Text(
    id: string,
    location: string,
    expirationDate: Option<Instant>,
    hashValue: Option<string>,
    createdAt: Option<Instant>,
    updatedAt: Option<Instant>)

  /** A row of the `texts` table: its `hash_value` is always set. */
  datatype TextModel = TextModel(
    id: string,
    location: string,
    expirationDate: Option<Instant>,
    hashValue: string,
    createdAt: Option<Instant>,
    updatedAt: Option<Instant>)

  /** `Text.create`: a fresh entity with no token yet; `id` and `now` are the caller's uuid and clock. */
  function Create(location: string, expirationDate: Option<Instant>, id: string, now: Instant): (t: Text)
    ensures t.hashValue == None
    ensures t.createdAt == t.updatedAt == Some(now)
    ensures t.location == location && t.expirationDate == expirationDate && t.id == id
  {
    Text(id, location, expirationDate, None, Some(now), Some(now))
  }

  /** `Text.from_model`: every column is copied into the entity. */
  function FromModel(m: TextModel): (t: Text)
    ensures t.id == m.id && t.location == m.location && t.expirationDate == m.expirationDate
    ensures t.hashValue == Some(m.hashValue)
    ensures t.createdAt == m.createdAt && t.updatedAt == m.updatedAt
  {
    Text(m.id, m.location, m.expirationDate, Some(m.hashValue), m.createdAt, m.updatedAt)
  }

  /** A JSON-like dictionary value: `None`, a string, or a serialised datetime. */
  datatype Value = Null | Str(s: string) | Time(t: Instant)

  type Dict = map<string, Value>

  function TimeValue(t: Option<Instant>): Value
  {
    if t.Some? then Time(t.value) else Null
  }

  function StrValue(s: Option<string>): Value
  {
    if s.Some? then Str(s.value) else Null
  }

  /** `to_dict`: six keys; absent datetimes and an absent token become `None`. */
  function ToDict(t: Text): (d: Dict)
    ensures d.Keys == {"id", "location", "expiration_date", "hash_value", "created_at", "updated_at"}
    ensures d["id"] == Str(t.id) && d["location"] == Str(t.location)
    ensures d["expiration_date"] == Null <==> t.expirationDate.None?
    ensures d["created_at"] == Null <==> t.createdAt.None?
    ensures d["updated_at"] == Null <==> t.updatedAt.None?
    ensures d["hash_value"] == Null <==> t.hashValue.None?
  {
    map[
      "id" := Str(t.id),
      "location" := Str(t.location),
      "expiration_date" := TimeValue(t.expirationDate),
      "hash_value" := StrValue(t.hashValue),
      "created_at" := TimeValue(t.createdAt),
      "updated_at" := TimeValue(t.updatedAt)]
  }

  /** The Python exception `from_dict` raises, with the key it was reading. */
  datatype DictError = KeyError(key: string) | TypeError(key: string) | ValueError(key: string)

  /**
   * A required string field: missing is a `KeyError`. The entity's fields
   * are strings, so a value of another kind is refused with a `TypeError`
   * (the source would copy it into the entity unchecked).
   */
  function RequiredStr(d: Dict, key: string): Result<string, DictError>
  {
    if key !in d then Failure(KeyError(key))
    else match d[key]
      case Str(s) => Success(s)
      case _ => Failure(TypeError(key))
  }

  /** `datetime.fromisoformat(data[key])`: `None` is a `TypeError`, a non-datetime string a `ValueError`. */
  function RequiredTime(d: Dict, key: string): Result<Instant, DictError>
  {
    if key !in d then Failure(KeyError(key))
    else match d[key]
      case Time(t) => Success(t)
      case Null => Failure(TypeError(key))
      case Str(_) => Failure(ValueError(key))
  }

  /** `fromisoformat(data[key]) if data.get(key) else None`: a missing, `None` or empty value is absent. */
  function OptionalTime(d: Dict, key: string): Result<Option<Instant>, DictError>
  {
    if key !in d then Success(None)
    else match d[key]
      case Time(t) => Success(Some(t))
      case Null => Success(None)
      case Str(s) => if s == "" then Success(None) else Failure(ValueError(key))
  }

  /** `data.get(key)` for a string field; a non-string value is refused here, where the source copies it through. */
  function OptionalStr(d: Dict, key: string): Result<Option<string>, DictError>
  {
    if key !in d then Success(None)
    else match d[key]
      case Str(s) => Success(Some(s))
      case Null => Success(None)
      case Time(_) => Failure(TypeError(key))
  }

  /**
   * The expiration field: as written, `from_dict` always parses it
   * (`required`); the corrected reading treats it like the other datetimes.
   */
  function ExpirationField(d: Dict, required: bool): Result<Option<Instant>, DictError>
  {
    if required then
      match RequiredTime(d, "expiration_date")
      case Failure(e) => Failure(e)
      case Success(t) => Success(Some(t))
    else OptionalTime(d, "expiration_date")
  }

  /** The fields read in declaration order; the first failure is raised. */
  function ReadText(d: Dict, expirationRequired: bool): Result<Text, DictError>
  {
    match RequiredStr(d, "id")
    case Failure(e) => Failure(e)
    case Success(id) =>
      match RequiredStr(d, "location")
      case Failure(e) => Failure(e)
      case Success(location) =>
        match ExpirationField(d, expirationRequired)
        case Failure(e) => Failure(e)
        case Success(expiration) =>
          match OptionalStr(d, "hash_value")
          case Failure(e) => Failure(e)
          case Success(hashValue) =>
            match OptionalTime(d, "created_at")
            case Failure(e) => Failure(e)
            case Success(createdAt) =>
              match OptionalTime(d, "updated_at")
              case Failure(e) => Failure(e)
              case Success(updatedAt) =>
                Success(Text(id, location, expiration, hashValue, createdAt, updatedAt))
  }

  /** `Text.from_dict` as written. */
  function FromDict(d: Dict): (r: Result<Text, DictError>)
    ensures r.Success? ==> ("created_at" !in d || d["created_at"] == Null ==> r.value.createdAt == None)
    ensures r.Success? ==> ("updated_at" !in d || d["updated_at"] == Null ==> r.value.updatedAt == None)
    ensures r.Success? ==> ("hash_value" !in d ==> r.value.hashValue == None)
    ensures r.Success? ==> r.value.expirationDate.Some?
    ensures ("id" in d && d["id"].Str? && "location" in d && d["location"].Str? &&
             "expiration_date" in d && d["expiration_date"] == Null)
            ==> r == Failure(TypeError("expiration_date"))
  {
    ReadText(d, true)
  }

  /** `Text.from_dict` with the expiration date optional, as `to_dict` and the active-text filter treat it. */
  function FromDictCorrected(d: Dict): (r: Result<Text, DictError>)
    ensures r.Success? ==> ("expiration_date" !in d || d["expiration_date"] == Null ==> r.value.expirationDate == None)
    ensures r.Success? ==> ("hash_value" !in d ==> r.value.hashValue == None)
    ensures FromDict(d).Success? ==> r == FromDict(d)
  {
    ReadText(d, false)
  }

  /** Round trip: an entity with an expiration date survives serialisation unchanged. */
  lemma DictRoundTrip(t: Text)
    requires t.expirationDate.Some?
    ensures FromDict(ToDict(t)) == Success(t)
  {
  }

  /** The other half: an entity without an expiration date serialises to a dictionary `from_dict` rejects. */
  lemma DictRoundTripFailsWithoutExpiration(t: Text)
    requires t.expirationDate.None?
    ensures FromDict(ToDict(t)) == Failure(TypeError("expiration_date"))
  {
  }

  /** A freshly created entity with an expiration date keeps its location and absent token through the cache format. */
  lemma CreatedTextRoundTrip(location: string, expiration: Instant, id: string, now: Instant)
    ensures var t := Create(location, Some(expiration), id, now);
            FromDict(ToDict(t)) == Success(t) && FromDict(ToDict(t)).value.hashValue == None
  {
    DictRoundTrip(Create(location, Some(expiration), id, now));
  }

  /** With the corrected reader every entity survives serialisation, with or without an expiration date. */
  lemma DictRoundTripCorrected(t: Text)
    ensures FromDictCorrected(ToDict(t)) == Success(t)
  {
  }
}
