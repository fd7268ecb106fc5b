/**
 * The blob-storage side of the text service: how an upload names its
 * object, how a location string `s3://<bucket>/<key>` is built and parsed
 * back into a key, and an in-memory bucket standing in for the object store.
 */
module S3Storage {
  import opened Wrappers

  /** The scheme prefix that the parser removes with Python's `str.replace`. */
  const Scheme: string := "s3://"

  /** `s.replace("s3://", "")`: scan left to right and drop every non-overlapping occurrence. */
  function StripScheme(s: string): (r: string)
    ensures |r| <= |s|
    decreases |s|
  {
    if |s| < |Scheme| then s
    else if s[..|Scheme|] == Scheme then StripScheme(s[|Scheme|..])
    else [s[0]] + StripScheme(s[1..])
  }

  /** The scheme occurs in `s` starting at index `i`. */
  predicate SchemeAt(s: string, i: nat)
  {
    i + |Scheme| <= |s| && s[i..i + |Scheme|] == Scheme
  }

  predicate ContainsScheme(s: string)
  {
    exists i: nat | i < |s| :: SchemeAt(s, i)
  }

  /** `s.split('/', 1)`: the whole string when it has no slash, otherwise the parts around the first slash. */
  function SplitOnce(s: string): (parts: seq<string>)
    ensures '/' !in s ==> parts == [s]
    ensures '/' in s ==> |parts| == 2 && s == parts[0] + "/" + parts[1] && '/' !in parts[0]
  {
    if s == [] then [s]
    else if s[0] == '/' then ["", s[1..]]
    else
      var rest := SplitOnce(s[1..]);
      if |rest| == 2 then [[s[0]] + rest[0], rest[1]] else [s]
  }

  /** Why a location string was refused (both are `ValueError` in the source). */
  datatype LocationError = InvalidFormat | UnexpectedBucket(bucket: string)

  /** The location an upload returns for object `fileName` in `bucket`. */
  function FormatLocation(bucket: string, fileName: string): string
  {
    Scheme + bucket + "/" + fileName
  }

  /** The object name an upload picks: a fresh identifier with a `.txt` suffix. */
  function FileName(id: string): string
  {
    id + ".txt"
  }

  /**
   * `parse_s3_location`: strip every scheme occurrence, split once on '/',
   * insist on the configured bucket and return the rest as the key.
   */
  function ParseLocation(location: string, bucket: string): (r: Result<string, LocationError>)
    ensures r == Failure(InvalidFormat) <==> '/' !in StripScheme(location)
    ensures r.Success? ==> StripScheme(location) == bucket + "/" + r.value && '/' !in bucket
  {
    var parts := SplitOnce(StripScheme(location));
    if |parts| != 2 then Failure(InvalidFormat)
    else if parts[0] != bucket then Failure(UnexpectedBucket(parts[0]))
    else Success(parts[1])
  }

  /** A string without a slash before the one that follows it splits exactly there. */
  lemma {:induction false} SplitAtFirstSlash(head: string, tail: string)
    requires '/' !in head
    ensures SplitOnce(head + "/" + tail) == [head, tail]
  {
    var s := head + "/" + tail;
    assert s[|head|] == '/';
    var parts := SplitOnce(s);
    assert s[|parts[0]|] == '/';
    forall k | 0 <= k < |head| ensures s[k] != '/' {
      assert s[k] == head[k];
    }
    forall k | 0 <= k < |parts[0]| ensures s[k] != '/' {
      assert s[k] == parts[0][k];
    }
    assert parts[0] == s[..|parts[0]|];
    assert s[..|head|] == head;
    assert parts[1] == s[|head| + 1..] == tail;
  }

  /** The parser accepts exactly the locations that, once stripped, start with `bucket/`. */
  lemma ParseLocationAccepts(location: string, bucket: string)
    ensures ParseLocation(location, bucket).Success? <==>
              '/' !in bucket && bucket + "/" <= StripScheme(location)
  {
    var s := StripScheme(location);
    if '/' !in bucket && bucket + "/" <= s {
      assert s == bucket + "/" + s[|bucket| + 1..];
      SplitAtFirstSlash(bucket, s[|bucket| + 1..]);
    }
  }

  /** A string with no scheme occurrence is left alone by the stripping. */
  lemma {:induction false} StripSchemeNoOp(s: string)
    requires !ContainsScheme(s)
    ensures StripScheme(s) == s
  {
    if |s| >= |Scheme| {
      assert !SchemeAt(s, 0);
      assert s[..|Scheme|] != Scheme;
      forall i: nat | SchemeAt(s[1..], i) ensures SchemeAt(s, i + 1) {
        assert s[1..][i..i + |Scheme|] == s[i + 1..i + 1 + |Scheme|];
      }
      StripSchemeNoOp(s[1..]);
      assert s == [s[0]] + s[1..];
    }
  }

  /** The scheme contains a ':', so a string without ':' cannot contain it. */
  lemma NoColonNoScheme(s: string)
    requires ':' !in s
    ensures !ContainsScheme(s)
  {
    forall i: nat | i + |Scheme| <= |s| ensures !SchemeAt(s, i) {
      assert s[i..i + |Scheme|][2] == s[i + 2];
    }
  }

  /** An embedded scheme after a colon-free prefix vanishes and nothing else in the prefix changes. */
  lemma {:induction false} StripEmbeddedScheme(a: string, b: string)
    requires ':' !in a
    ensures StripScheme(a + Scheme + b) == a + StripScheme(b)
  {
    var s := a + Scheme + b;
    if a == [] {
      assert s == Scheme + b;
      assert s[..|Scheme|] == Scheme;
      assert s[|Scheme|..] == b;
    } else {
      assert |s| >= |Scheme|;
      if |a| >= 3 {
        assert s[2] == a[2];
      } else {
        assert s[2] == Scheme[2 - |a|];
      }
      assert s[..|Scheme|][2] == s[2] != ':';
      assert s[..|Scheme|] != Scheme;
      assert s[1..] == a[1..] + Scheme + b;
      StripEmbeddedScheme(a[1..], b);
      assert a == [a[0]] + a[1..];
    }
  }

  /**
   * Round trip: the key recovered from a location the upload built is the
   * object name, even when that name itself contains slashes.
   */
  lemma ParseFormatRoundTrip(bucket: string, fileName: string)
    requires '/' !in bucket
    requires !ContainsScheme(bucket + "/" + fileName)
    ensures ParseLocation(FormatLocation(bucket, fileName), bucket) == Success(fileName)
  {
    var rest := bucket + "/" + fileName;
    var location := FormatLocation(bucket, fileName);
    assert location == Scheme + rest;
    assert location[..|Scheme|] == Scheme && location[|Scheme|..] == rest;
    StripSchemeNoOp(rest);
    SplitAtFirstSlash(bucket, fileName);
  }

  /** The uploads of this service name objects `<id>.txt`; with colon-free names the round trip holds. */
  lemma UploadLocationRoundTrip(bucket: string, id: string)
    requires '/' !in bucket && ':' !in bucket && ':' !in id
    ensures ParseLocation(FormatLocation(bucket, FileName(id)), bucket) == Success(FileName(id))
  {
    assert ':' !in bucket + "/" + FileName(id);
    NoColonNoScheme(bucket + "/" + FileName(id));
    ParseFormatRoundTrip(bucket, FileName(id));
  }

  /** An embedded scheme in the key part is removed from the key that is returned. */
  lemma ParseDropsEmbeddedScheme(bucket: string, dir: string, name: string)
    requires '/' !in bucket && ':' !in bucket && ':' !in dir && ':' !in name
    ensures ParseLocation(Scheme + bucket + "/" + dir + Scheme + name, bucket) == Success(dir + name)
  {
    var location := Scheme + bucket + "/" + dir + Scheme + name;
    assert location == [] + Scheme + (bucket + "/" + dir + Scheme + name);
    StripEmbeddedScheme([], bucket + "/" + dir + Scheme + name);
    assert bucket + "/" + dir + Scheme + name == (bucket + "/" + dir) + Scheme + name;
    StripEmbeddedScheme(bucket + "/" + dir, name);
    NoColonNoScheme(name);
    StripSchemeNoOp(name);
    assert StripScheme(location) == bucket + "/" + (dir + name);
    SplitAtFirstSlash(bucket, dir + name);
  }

  /** Errors of the object store client. */
  datatype StorageError = ClientError | NoSuchKey(key: string)

  /** A truthiness test on an optional string, as Python's `not text`. */
  predicate Falsy(text: Option<string>)
  {
    text.None? || text.value == ""
  }

  /** One bucket of the object store: object name to body. */
  class BlobStore {
    const bucket: string
    var objects: map<string, string>

    constructor (bucket: string)
      ensures this.bucket == bucket && objects == map[]
    {
      this.bucket := bucket;
      objects := map[];
    }

    /**
     * `upload_text(content, text)`: stores `text`, or `content` when `text`
     * is falsy, under `<id>.txt` and returns its location. `fails` stands for
     * a client error from the store.
     */
    method UploadText(content: string, text: Option<string>, id: string, fails: bool)
      returns (r: Result<string, StorageError>)
      modifies this`objects
      ensures fails ==> r == Failure(ClientError) && objects == old(objects)
      ensures !fails ==> r == Success(FormatLocation(bucket, FileName(id)))
      ensures !fails ==> objects == old(objects)[FileName(id) := if Falsy(text) then content else text.value]
    {
      var body := if Falsy(text) then content else text.value;
      var fileName := FileName(id);
      if fails {
        return Failure(ClientError);
      }
      objects := objects[fileName := body];
      r := Success(FormatLocation(bucket, fileName));
    }

    /** `get_text_content(key)`: the stored body, or an error for a missing key or an unreachable store. */
    function GetTextContent(key: string, fails: bool): (r: Result<string, StorageError>)
      reads this
      ensures r.Success? <==> !fails && key in objects
      ensures r.Success? ==> r.value == objects[key]
    {
      if fails then Failure(ClientError)
      else if key !in objects then Failure(NoSuchKey(key))
      else Success(objects[key])
    }

    /** `delete_text(key)`: removes the object; deleting a missing key succeeds, as in S3. */
    method DeleteText(key: string, fails: bool) returns (ok: bool)
      modifies this`objects
      ensures ok == !fails
      ensures objects == if fails then old(objects) else old(objects) - {key}
    {
      if fails {
        return false;
      }
      objects := objects - {key};
      ok := true;
    }
  }
}
