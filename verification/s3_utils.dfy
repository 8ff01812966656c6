/**
  `S3Manager`: uploads, listings, links and deletions on one bucket. The
  bucket is the map of stored keys plus the faults its requests answer
  with; a key is found free when the `HEAD` request answers `404`. Uploads
  never overwrite: the name gets `_1`, `_2`, ... before its extension until
  a free key turns up.
*/
module S3Utils {
  import opened Util
  import opened Seqs
  import opened PyStr
  import opened S3Client

  /** What a request raises: an `HTTPException` with status and detail, or a
      `ClientError` with its error code, re-raised untouched. */
  datatype S3Error = Http(status: nat, detail: string) | Client(code: string)

  /** A stored object: its `ContentType` and `ACL`. */
  datatype Stored = Stored(contentType: string, acl: string)

  /** The bucket: its objects, and the error codes a `HEAD` or a `DELETE` of
      a key answers with instead of succeeding. */
  datatype Bucket = Bucket(
    objects: map<string, Stored>,
    headFaults: map<string, string>,
    deleteFaults: map<string, string>)

  /** A bucket state, and the result of the operation that produced it. */
  datatype Outcome<T> = Outcome(bucket: Bucket, result: Result<T, S3Error>)

  const InvalidImageText: string := "Invalid image file"
  const CheckFailedText: string := "Error checking or deleting existing file in S3"
  const PresignFailedText: string := "Error generating presigned URL"
  const ListFailedText: string := "Error connecting to S3 or retrieving objects"
  const UploadFailedText: string := "Error uploading file to S3"
  const UploadUrlFailedText: string := "Error generating presigned upload URL"
  const DeleteFailedText: string := "Error deleting file from S3"

  /** `_prepare_path`: a non-empty folder ends with `/`. */
  function PreparePath(path: string): (r: string)
    ensures r == [] <==> path == []
    ensures r == [] || EndsWith(r, "/")
    ensures StartsWith(r, path) && |r| <= |path| + 1
  {
    if path != [] && !EndsWith(path, "/") then path + "/" else path
  }

  /** `update_object` prepares the folder it hands to `put_object`, which
      prepares it again: the second time changes nothing. */
  lemma PreparePathIdempotent(path: string)
    ensures PreparePath(PreparePath(path)) == PreparePath(path)
  {
  }

  /** A folder as `_prepare_path` leaves it. */
  predicate IsDir(dir: string) {
    dir == [] || EndsWith(dir, "/")
  }

  // ---------------------------------------------------------------------
  // `os.path.splitext` (POSIX)
  // ---------------------------------------------------------------------

  /** `s.rfind(c)`: the last index of `c`, or -1. */
  function RFind(s: string, c: char): (r: int)
    ensures -1 <= r < |s|
    ensures r >= 0 ==> s[r] == c
    ensures forall i :: r < i < |s| ==> s[i] != c
  {
    if s == [] then -1
    else if s[|s| - 1] == c then |s| - 1
    else RFind(s[..|s| - 1], c)
  }

  /** The last path component contains a character other than `.`. */
  predicate NamedBase(p: string) {
    exists i :: RFind(p, '/') < i < |p| && p[i] != '.'
  }

  /** `os.path.splitext`: the extension runs from the last `.` of the last
      path component, unless everything before that dot in the component is
      dots too (`.bashrc` has no extension). */
  function SplitExt(p: string): (r: (string, string))
    ensures r.0 + r.1 == p
    ensures r.1 != [] ==> r.1[0] == '.' && '.' !in r.1[1..] && '/' !in r.1
    ensures r.1 != [] ==> NamedBase(r.0)
  {
    var sep := RFind(p, '/');
    var dot := RFind(p, '.');
    if dot > sep && exists i :: sep < i < dot && p[i] != '.' then
      var root := p[..dot];
      assert RFind(root, '/') == sep by { RFindTruncate(p, dot, '/'); }
      assert p[dot..][1..] == p[dot + 1..];
      (root, p[dot..])
    else
      (p, [])
  }

  /** Cutting a string after the last `c` leaves that last `c` in place. */
  lemma RFindTruncate(s: string, n: int, c: char)
    requires RFind(s, c) < n <= |s|
    ensures RFind(s[..n], c) == RFind(s, c)
  {
    RFindIs(s[..n], c, RFind(s, c));
  }

  /** Appending text without `c` does not move the last `c`. */
  lemma RFindExtend(s: string, t: string, c: char)
    requires c !in t
    ensures RFind(s + t, c) == RFind(s, c)
  {
    var q := RFind(s, c);
    forall i | q < i < |s + t|
      ensures (s + t)[i] != c
    {
      if i >= |s| {
        assert (s + t)[i] == t[i - |s|];
      }
    }
    RFindIs(s + t, c, q);
  }

  /** The last index of `c` is the one past which no `c` occurs. */
  lemma RFindIs(s: string, c: char, r: int)
    requires -1 <= r < |s| && (r >= 0 ==> s[r] == c)
    requires forall i :: r < i < |s| ==> s[i] != c
    ensures RFind(s, c) == r
  {
  }

  // ---------------------------------------------------------------------
  // `_generate_unique_key`
  // ---------------------------------------------------------------------

  /** The `n`-th key tried for `name`: the name itself, then
      `{base}_{n}{extension}`. */
  function Candidate(name: string, n: nat): (r: string)
    ensures n == 0 ==> r == name
    ensures n > 0 ==> r == SplitExt(name).0 + "_" + NatToString(n) + SplitExt(name).1
  {
    if n == 0 then name else SplitExt(name).0 + "_" + NatToString(n) + SplitExt(name).1
  }

  /** Different counters give different keys. */
  lemma CandidatesDistinct(name: string, m: nat, n: nat)
    requires m != n
    ensures Candidate(name, m) != Candidate(name, n)
  {
    var (b, e) := SplitExt(name);
    if m > 0 && n > 0 && Candidate(name, m) == Candidate(name, n) {
      var sm := NatToString(m);
      var sn := NatToString(n);
      assert |sm| == |sn|;
      var cm := Candidate(name, m);
      assert cm == b + "_" + sm + e;
      assert cm[|b| + 1..|b| + 1 + |sm|] == sm;
      assert Candidate(name, n)[|b| + 1..|b| + 1 + |sn|] == sn;
      NatToStringInjective(m, n);
    }
  }

  /** The `HEAD` request: `None` when it succeeds, else the error code it
      raises, `404` for a key that is not stored. */
  function HeadCode(b: Bucket, key: string): (r: Option<string>)
    ensures r.None? <==> key !in b.headFaults && key in b.objects
    ensures key !in b.headFaults && key !in b.objects ==> r == Some("404")
  {
    if key in b.headFaults then Some(b.headFaults[key])
    else if key in b.objects then None
    else Some("404")
  }

  /** The keys the search tries, in order: no key comes up twice. */
  ghost predicate Injective(key: nat -> string) {
    forall m: nat, n: nat :: m != n ==> key(m) != key(n)
  }

  /** The keys tried before the `n`-th. */
  function KeysBelow(key: nat -> string, n: nat): (s: set<string>)
    ensures forall m :: 0 <= m < n ==> key(m) in s
  {
    if n == 0 then {} else KeysBelow(key, n - 1) + {key(n - 1)}
  }

  /** A key from the `n`-th on is not among the earlier ones. */
  lemma {:induction false} FreshKey(key: nat -> string, n: nat, j: nat)
    requires Injective(key) && n <= j
    ensures key(j) !in KeysBelow(key, n)
  {
    if n > 0 {
      FreshKey(key, n - 1, j);
      assert key(j) != key(n - 1);
    }
  }

  /** The search from the `n`-th key on: every key found moves it to the
      next; `404` ends it with the free key; any other code is raised. The
      search ends because each key found is a different stored key. */
  function SearchFrom(b: Bucket, key: nat -> string, n: nat): (Result<string, S3Error>, nat)
    requires Injective(key)
    requires forall m :: 0 <= m < n ==> HeadCode(b, key(m)).None?
    decreases |b.objects.Keys - KeysBelow(key, n)|
  {
    match HeadCode(b, key(n))
    case None =>
      SearchStep(b, key, n);
      SearchFrom(b, key, n + 1)
    case Some(code) =>
      if code == "404" then (Ok(key(n)), n) else (Err(Client(code)), n)
  }

  /** The search stops at the first key from the `n`-th on whose `HEAD`
      request fails: with that key when the code is `404`, with the code
      raised otherwise. */
  predicate StopsAtFirstFailure(b: Bucket, key: nat -> string, n: nat, r: (Result<string, S3Error>, nat)) {
    && r.1 >= n
    && (forall m :: 0 <= m < r.1 ==> HeadCode(b, key(m)).None?)
    && HeadCode(b, key(r.1)).Some?
    && (r.0.Ok? <==> HeadCode(b, key(r.1)) == Some("404"))
    && (r.0.Ok? ==> r.0.value == key(r.1))
    && (r.0.Err? ==> r.0.error == Client(HeadCode(b, key(r.1)).value))
  }

  lemma {:induction false} SearchStops(b: Bucket, key: nat -> string, n: nat)
    requires Injective(key)
    requires forall m :: 0 <= m < n ==> HeadCode(b, key(m)).None?
    ensures StopsAtFirstFailure(b, key, n, SearchFrom(b, key, n))
    decreases |b.objects.Keys - KeysBelow(key, n)|
  {
    if HeadCode(b, key(n)).None? {
      SearchStep(b, key, n);
      SearchStops(b, key, n + 1);
    }
  }

  /** A key found taken is one more stored key tried. */
  lemma SearchStep(b: Bucket, key: nat -> string, n: nat)
    requires Injective(key)
    requires HeadCode(b, key(n)).None?
    ensures |b.objects.Keys - KeysBelow(key, n + 1)| < |b.objects.Keys - KeysBelow(key, n)|
  {
    FreshKey(key, n, n);
    assert KeysBelow(key, n + 1) == KeysBelow(key, n) + {key(n)};
    SearchShrinks(b.objects.Keys, KeysBelow(key, n), key(n));
  }

  lemma SearchShrinks(keys: set<string>, tried: set<string>, key: string)
    requires key in keys && key !in tried
    ensures |keys - (tried + {key})| < |keys - tried|
  {
    assert keys - (tried + {key}) == (keys - tried) - {key};
  }

  /** The keys `_generate_unique_key` tries for `name`. */
  function CandidateKeys(name: string): nat -> string {
    (m: nat) => Candidate(name, m)
  }

  lemma CandidateKeysInjective(name: string)
    ensures Injective(CandidateKeys(name))
  {
    forall m: nat, n: nat | m != n
      ensures CandidateKeys(name)(m) != CandidateKeys(name)(n)
    {
      CandidatesDistinct(name, m, n);
    }
  }

  /** The keys tried before the `n`-th are the first `n` candidates. */
  lemma CandidateKeysAre(name: string, n: nat)
    ensures forall m :: 0 <= m <= n ==> CandidateKeys(name)(m) == Candidate(name, m)
  {
  }

  /** `_generate_unique_key` as a value: the key found or the error, and
      how many keys were found taken before it. The key returned is the
      first free one; in a bucket whose requests do not fail it is always
      found and never a stored key. */
  function UniqueKey(b: Bucket, name: string): (r: (Result<string, S3Error>, nat))
    ensures forall m :: 0 <= m < r.1 ==> Candidate(name, m) in b.objects
    ensures r.0.Ok? ==> r.0.value == Candidate(name, r.1)
    ensures r.0.Ok? && r.0.value !in b.headFaults ==> r.0.value !in b.objects
    ensures r.0.Err? ==>
      && r.0.error.Client? && r.0.error.code != "404"
      && Candidate(name, r.1) in b.headFaults && b.headFaults[Candidate(name, r.1)] == r.0.error.code
    ensures b.headFaults == map[] ==> r.0.Ok?
  {
    CandidateKeysInjective(name);
    SearchStops(b, CandidateKeys(name), 0);
    CandidateKeysAre(name, SearchFrom(b, CandidateKeys(name), 0).1);
    SearchFrom(b, CandidateKeys(name), 0)
  }

  /** `_generate_unique_key` with its loop: the counter and key advance
      while the `HEAD` request finds the key taken. */
  method GenerateUniqueKey(b: Bucket, name: string) returns (r: Result<string, S3Error>, tries: nat)
    ensures (r, tries) == UniqueKey(b, name)
  {
    CandidateKeysInjective(name);
    var keys := CandidateKeys(name);
    var key := name;
    var counter := 0;
    while true
      invariant key == keys(counter)
      invariant forall m :: 0 <= m < counter ==> HeadCode(b, keys(m)).None?
      invariant SearchFrom(b, keys, counter) == UniqueKey(b, name)
      decreases |b.objects.Keys - KeysBelow(keys, counter)|
    {
      match HeadCode(b, key)
      case None =>
        SearchStep(b, keys, counter);
        counter := counter + 1;
        key := Candidate(name, counter);
      case Some(code) =>
        if code == "404" {
          return Ok(key), counter;
        }
        return Err(Client(code)), counter;
    }
  }

  // ---------------------------------------------------------------------
  // Listing
  // ---------------------------------------------------------------------

  /** `is_image`: the lower-cased key ends with one of the image
      extensions. */
  predicate IsImage(key: string) {
    var k := AsciiLower(key);
    EndsWith(k, ".png") || EndsWith(k, ".jpg") || EndsWith(k, ".jpeg")
      || EndsWith(k, ".webp") || EndsWith(k, ".gif")
  }

  /** A key ending in `.webp` is an image. */
  lemma WebpIsImage(key: string)
    requires EndsWith(key, ".webp")
    ensures IsImage(key)
  {
    var k := AsciiLower(key);
    var n := |key|;
    assert k[n - 5..] == key[n - 5..] by {
      forall i | n - 5 <= i < n
        ensures k[i] == key[i]
      {
        assert key[i] == key[n - 5..][i - (n - 5)];
      }
    }
  }

  /** `filter_key` for a `file_type`. */
  function KeyFilter(fileType: string): string -> bool {
    if fileType == "images" then k => IsImage(k)
    else if fileType == "non_images" then k => !IsImage(k)
    else k => true
  }

  /** `list_objects` on the keys the listing request returned (`None` when
      the response has no `Contents`, `Err` when it raises): the keys of the
      requested kind, in listing order. */
  function ListObjects(listed: Result<Option<seq<string>>, string>, fileType: string): (r: Result<seq<string>, S3Error>)
    ensures r.Err? <==> listed.Err?
    ensures r.Err? ==> r.error == Http(500, ListFailedText)
    ensures listed == Ok(None) ==> r == Ok([])
    ensures r.Ok? && fileType == "images" ==> forall k :: 0 <= k < |r.value| ==> IsImage(r.value[k])
    ensures r.Ok? && fileType == "non_images" ==> forall k :: 0 <= k < |r.value| ==> !IsImage(r.value[k])
    ensures r.Ok? && listed.value.Some? && fileType !in {"images", "non_images"} ==> r.value == listed.value.value
    ensures r.Ok? && listed.value.Some? ==>
      forall k :: 0 <= k < |listed.value.value| && KeyFilter(fileType)(listed.value.value[k]) ==>
        listed.value.value[k] in r.value
  {
    match listed
    case Err(_) => Err(Http(500, ListFailedText))
    case Ok(None) => Ok([])
    case Ok(Some(keys)) =>
      if fileType !in {"images", "non_images"} then FilterAll(keys, KeyFilter(fileType)); Ok(Filter(keys, KeyFilter(fileType)))
      else Ok(Filter(keys, KeyFilter(fileType)))
  }

  /** The images and the other files of a listing are the whole listing,
      each key counted once. */
  lemma ImagesAndOthersPartition(keys: seq<string>)
    ensures |ListObjects(Ok(Some(keys)), "images").value| + |ListObjects(Ok(Some(keys)), "non_images").value| == |keys|
    ensures multiset(ListObjects(Ok(Some(keys)), "images").value) + multiset(ListObjects(Ok(Some(keys)), "non_images").value)
         == multiset(keys)
  {
    FilterComplement(keys, KeyFilter("images"), KeyFilter("non_images"));
  }

  // ---------------------------------------------------------------------
  // Links
  // ---------------------------------------------------------------------

  /** `get_url`: a custom domain wins, then a public bucket's direct path;
      otherwise the presigned link the client signs (`None` when signing
      raises). */
  function GetUrl(s: Storage, key: string, presigned: Option<string>): (r: Result<string, S3Error>)
    ensures r.Err? <==> !Given(s.customDomain) && s.defaultAcl != "public-read" && presigned.None?
    ensures r.Err? ==> r.error == Http(500, PresignFailedText)
    ensures Given(s.customDomain) || s.defaultAcl == "public-read" ==>
      r.Ok? && StartsWith(r.value, Protocol(s.useSsl) + "://") && EndsWith(r.value, "/" + key)
    ensures Given(s.customDomain) ==> r.Ok? && StartsWith(r.value, Protocol(s.useSsl) + "://" + s.customDomain.value + "/")
    ensures !Given(s.customDomain) && s.defaultAcl == "public-read" ==>
      r.Ok? && Contains(r.value, "/" + s.bucketName + "/")
    ensures !Given(s.customDomain) && s.defaultAcl != "public-read" && presigned.Some? ==> r == Ok(presigned.value)
    ensures Given(s.customDomain) ==> r == Ok(Protocol(s.useSsl) + "://" + s.customDomain.value + "/" + key)
    ensures !Given(s.customDomain) && s.defaultAcl == "public-read" ==>
      r == Ok(Protocol(s.useSsl) + "://" + s.endpointDomain + "/" + s.bucketName + "/" + key)
  {
    var scheme := Protocol(s.useSsl) + "://";
    if Given(s.customDomain) then
      CustomDomainUrl(scheme, s.customDomain.value, key);
      Ok(scheme + s.customDomain.value + "/" + key)
    else if s.defaultAcl == "public-read" then
      PublicBucketUrl(scheme, s.endpointDomain, s.bucketName, key);
      Ok(scheme + s.endpointDomain + "/" + s.bucketName + "/" + key)
    else if presigned.None? then Err(Http(500, PresignFailedText))
    else Ok(presigned.value)
  }

  /** A link on the custom domain starts with the scheme and the domain and
      ends with the key. */
  lemma CustomDomainUrl(scheme: string, domain: string, key: string)
    ensures StartsWith(scheme + domain + "/" + key, scheme + domain + "/")
    ensures StartsWith(scheme + domain + "/" + key, scheme)
    ensures EndsWith(scheme + domain + "/" + key, "/" + key)
  {
    var url := scheme + domain + "/" + key;
    assert url[|url| - |key| - 1..] == "/" + key;
    assert url[..|scheme + domain + "/"|] == scheme + domain + "/";
    assert url[..|scheme|] == scheme;
  }

  /** A direct link into a public bucket starts with the scheme, names the
      bucket as a path component and ends with the key. */
  lemma PublicBucketUrl(scheme: string, domain: string, bucket: string, key: string)
    ensures StartsWith(scheme + domain + "/" + bucket + "/" + key, scheme)
    ensures EndsWith(scheme + domain + "/" + bucket + "/" + key, "/" + key)
    ensures Contains(scheme + domain + "/" + bucket + "/" + key, "/" + bucket + "/")
  {
    var url := scheme + domain + "/" + bucket + "/" + key;
    assert url[|url| - |key| - 1..] == "/" + key;
    assert url[..|scheme|] == scheme;
    assert OccursAt(url, "/" + bucket + "/", |scheme| + |domain|);
  }

  /** The scheme part of a link, `https://` or `http://`. */
  function Scheme(ssl: bool): string {
    Protocol(ssl) + "://"
  }

  /** The link `SCHEME://HOST/PATH`. */
  function Link(ssl: bool, host: string, path: string): string {
    Scheme(ssl) + host + "/" + path
  }

  /** A link cut into its scheme, its host and its path, or `None` when it
      has neither scheme nor a `/` after the host. */
  function SplitLink(url: string): (r: Option<(bool, string, string)>)
    ensures r.Some? ==> url == Link(r.value.0, r.value.1, r.value.2) && '/' !in r.value.1
  {
    var ssl := StartsWith(url, Scheme(true));
    if !ssl && !StartsWith(url, Scheme(false)) then None
    else
      var cut := SplitFirst(url[|Scheme(ssl)|..], '/');
      if cut.None? then None
      else
        JoinLink(url, ssl, cut.value.0, cut.value.1);
        Some((ssl, cut.value.0, cut.value.1))
  }

  lemma JoinLink(url: string, ssl: bool, host: string, path: string)
    requires StartsWith(url, Scheme(ssl))
    requires url[|Scheme(ssl)|..] == host + ['/'] + path
    ensures url == Link(ssl, host, path)
  {
    assert url == url[..|Scheme(ssl)|] + url[|Scheme(ssl)|..];
  }

  /** Cutting a link made of a scheme, a host without `/` and a path gives
      those three back. */
  lemma SplitLinkOf(ssl: bool, host: string, path: string)
    requires '/' !in host
    ensures SplitLink(Link(ssl, host, path)) == Some((ssl, host, path))
  {
    var url := Link(ssl, host, path);
    var n := |Scheme(ssl)|;
    assert url[..n] == Scheme(ssl);
    assert url[n..] == host + ['/'] + path;
    SplitFirstOf(host, '/', path);
    if !ssl {
      assert url[4] == ':' && Scheme(true)[4] == 's';
      assert |url| >= 8 ==> url[..8][4] == ':';
      assert !StartsWith(url, Scheme(true));
    }
    assert StartsWith(url, Scheme(true)) == ssl;
    assert SplitFirst(url[|Scheme(ssl)|..], '/') == Some((host, path));
  }

  /** The link `get_url` gives without signing names where the object is:
      on a custom domain the host is the domain and the path is the key; on
      a public bucket the host is the storage endpoint and the path is the
      bucket, a `/`, and the key. Host names and bucket names hold no `/`. */
  lemma DirectLinkParts(s: Storage, key: string, presigned: Option<string>)
    requires Given(s.customDomain) ==> '/' !in s.customDomain.value
    requires !Given(s.customDomain) ==> '/' !in s.endpointDomain && '/' !in s.bucketName
    requires Given(s.customDomain) || s.defaultAcl == "public-read"
    ensures GetUrl(s, key, presigned).Ok?
    ensures Given(s.customDomain) ==>
      SplitLink(GetUrl(s, key, presigned).value) == Some((s.useSsl, s.customDomain.value, key))
    ensures !Given(s.customDomain) ==>
      SplitLink(GetUrl(s, key, presigned).value) == Some((s.useSsl, s.endpointDomain, s.bucketName + "/" + key))
      && SplitFirst(s.bucketName + "/" + key, '/') == Some((s.bucketName, key))
  {
    if Given(s.customDomain) {
      assert GetUrl(s, key, presigned).value == Link(s.useSsl, s.customDomain.value, key);
      SplitLinkOf(s.useSsl, s.customDomain.value, key);
    } else {
      var url := Protocol(s.useSsl) + "://" + s.endpointDomain + "/" + s.bucketName + "/" + key;
      assert url == Link(s.useSsl, s.endpointDomain, s.bucketName + "/" + key);
      SplitLinkOf(s.useSsl, s.endpointDomain, s.bucketName + "/" + key);
      SplitFirstOf(s.bucketName, '/', key);
    }
  }

  // ---------------------------------------------------------------------
  // Deletion
  // ---------------------------------------------------------------------

  /** `delete_object`: a `NoSuchKey` answer is tolerated, any other error
      becomes HTTP 500. */
  function DeleteObject(b: Bucket, key: string): (r: Result<Bucket, S3Error>)
    ensures r.Err? <==> key in b.deleteFaults && b.deleteFaults[key] != "NoSuchKey"
    ensures r.Err? ==> r.error == Http(500, DeleteFailedText)
    ensures r.Ok? && key !in b.deleteFaults ==> r.value.objects == b.objects - {key}
    ensures r.Ok? && key in b.deleteFaults ==> r.value == b
    ensures r.Ok? ==> r.value.headFaults == b.headFaults && r.value.deleteFaults == b.deleteFaults
    ensures r.Ok? ==> forall k :: k != key && k in b.objects ==> k in r.value.objects && r.value.objects[k] == b.objects[k]
  {
    if key in b.deleteFaults then
      if b.deleteFaults[key] == "NoSuchKey" then Ok(b) else Err(Http(500, DeleteFailedText))
    else Ok(b.(objects := b.objects - {key}))
  }

  /** `_check_and_delete_object`: a key found is deleted (the deletion's
      own error passes through); `404` means nothing to do; any other
      `HEAD` error becomes HTTP 500. */
  function CheckAndDelete(b: Bucket, key: string): (r: Result<Bucket, S3Error>)
    ensures HeadCode(b, key).None? ==> r == DeleteObject(b, key)
    ensures HeadCode(b, key) == Some("404") ==> r == Ok(b)
    ensures HeadCode(b, key).Some? && HeadCode(b, key) != Some("404") ==> r == Err(Http(500, CheckFailedText))
    ensures r.Ok? && key !in b.headFaults && key !in b.deleteFaults ==> key !in r.value.objects
    ensures r.Ok? ==> r.value.headFaults == b.headFaults && r.value.deleteFaults == b.deleteFaults
    ensures r.Ok? ==> r.value.objects.Keys <= b.objects.Keys
  {
    match HeadCode(b, key)
    case None => DeleteObject(b, key)
    case Some(code) => if code != "404" then Err(Http(500, CheckFailedText)) else Ok(b)
  }

  // ---------------------------------------------------------------------
  // Uploads
  // ---------------------------------------------------------------------

  /** An uploaded file: its `filename`, the MIME type `filetype.guess`
      finds in its content (if any), and whether the image library can open
      that content. */
  datatype Upload = Upload(name: string, mime: Option<string>, decodable: bool)

  /** The content was recognised as an image. */
  predicate IsImageKind(mime: Option<string>) {
    mime.Some? && StartsWith(mime.value, "image")
  }

  /** The name an upload is stored under: images are converted to WEBP and
      take its extension. */
  function StoredName(f: Upload): string {
    if IsImageKind(f.mime) then SplitExt(f.name).0 + ".webp" else f.name
  }

  /** The `ContentType` an upload is stored with. */
  function ContentType(f: Upload): string {
    if IsImageKind(f.mime) then "image/webp"
    else if f.mime.Some? then f.mime.value
    else "application/octet-stream"
  }

  /** `put_object` of `f` into the folder `path`; `putFault` is the error
      code the upload request raises, if it does. An image that cannot be
      opened is refused before any request; the key is the first free one
      for the stored name in the folder; the new object is stored with the
      client's default ACL and nothing else changes. */
  function PutObject(b: Bucket, s: Storage, f: Upload, path: string, putFault: Option<string>): (r: Outcome<string>)
    ensures r.result.Err? ==> r.bucket == b
    ensures IsImageKind(f.mime) && !f.decodable ==> r.result == Err(Http(400, InvalidImageText))
    ensures r.result.Ok? ==> UniqueKey(b, PreparePath(path) + StoredName(f)).0 == Ok(r.result.value)
    ensures r.result.Ok? ==> StartsWith(r.result.value, PreparePath(path))
    ensures r.result.Ok? ==>
      && r.bucket.objects == b.objects[r.result.value := Stored(ContentType(f), s.defaultAcl)]
      && r.bucket.headFaults == b.headFaults && r.bucket.deleteFaults == b.deleteFaults
    ensures r.result.Ok? && r.result.value !in b.headFaults ==> r.result.value !in b.objects
    ensures (!IsImageKind(f.mime) || f.decodable) && UniqueKey(b, PreparePath(path) + StoredName(f)).0.Ok? ==>
      (r.result.Ok? <==> putFault.None?)
    ensures putFault.Some? && r.result.Err? && (!IsImageKind(f.mime) || f.decodable) && UniqueKey(b, PreparePath(path) + StoredName(f)).0.Ok? ==>
      r.result.error == Http(500, UploadFailedText)
  {
    var dir := PreparePath(path);
    if IsImageKind(f.mime) && !f.decodable then Outcome(b, Err(Http(400, InvalidImageText)))
    else
      var (found, tries) := UniqueKey(b, dir + StoredName(f));
      match found
      case Err(e) => Outcome(b, Err(e))
      case Ok(key) =>
        CandidateInDir(dir, StoredName(f), tries);
        if putFault.Some? then Outcome(b, Err(Http(500, UploadFailedText)))
        else Outcome(b.(objects := b.objects[key := Stored(ContentType(f), s.defaultAcl)]), Ok(key))
  }

  /** Every key tried for a name in a folder stays in that folder. */
  lemma CandidateInDir(dir: string, name: string, n: nat)
    requires IsDir(dir)
    ensures StartsWith(Candidate(dir + name, n), dir)
  {
    var p := dir + name;
    if n > 0 && dir != [] {
      assert p[|dir| - 1] == dir[|dir| - 1] == '/';
      var root := SplitExt(p).0;
      assert |root| >= |dir|;
      assert root == p[..|root|];
      assert Candidate(p, n)[..|dir|] == root[..|dir|];
    }
  }

  /** `update_object`: the old key is checked and deleted first (an error
      there stops the update with the bucket unchanged), then the file is
      put as `put_object` puts it into the same folder. */
  function UpdateObject(b: Bucket, s: Storage, f: Upload, oldKey: string, path: string, putFault: Option<string>): (r: Outcome<string>)
    ensures CheckAndDelete(b, oldKey).Err? ==> r == Outcome(b, Err(CheckAndDelete(b, oldKey).error))
    ensures CheckAndDelete(b, oldKey).Ok? ==> r == PutObject(CheckAndDelete(b, oldKey).value, s, f, path, putFault)
  {
    match CheckAndDelete(b, oldKey)
    case Err(e) => Outcome(b, Err(e))
    case Ok(cleared) =>
      PreparePathIdempotent(path);
      PutObject(cleared, s, f, PreparePath(path), putFault)
  }

  /** A successful update removes the old object, unless the new one took
      over its key, and stores the new one. */
  lemma UpdateReplacesObject(b: Bucket, s: Storage, f: Upload, oldKey: string, path: string, putFault: Option<string>)
    requires oldKey !in b.headFaults && oldKey !in b.deleteFaults
    requires UpdateObject(b, s, f, oldKey, path, putFault).result.Ok?
    ensures UpdateObject(b, s, f, oldKey, path, putFault).result.value != oldKey ==>
      oldKey !in UpdateObject(b, s, f, oldKey, path, putFault).bucket.objects
    ensures UpdateObject(b, s, f, oldKey, path, putFault).result.value in UpdateObject(b, s, f, oldKey, path, putFault).bucket.objects
  {
  }

  /** `generate_upload_url`: the first free key in the folder and the
      presigned upload link for it (`presign` is the signing call, `None`
      when it raises). The bucket does not change. */
  function GenerateUploadUrl(b: Bucket, fileName: string, path: string, presign: string -> Option<string>): (r: Result<(string, string), S3Error>)
    ensures UniqueKey(b, PreparePath(path) + fileName).0.Err? ==> r == Err(UniqueKey(b, PreparePath(path) + fileName).0.error)
    ensures r.Ok? ==> UniqueKey(b, PreparePath(path) + fileName).0 == Ok(r.value.1) && presign(r.value.1) == Some(r.value.0)
    ensures r.Ok? ==> StartsWith(r.value.1, PreparePath(path))
    ensures r.Ok? && r.value.1 !in b.headFaults ==> r.value.1 !in b.objects
    ensures r.Err? && UniqueKey(b, PreparePath(path) + fileName).0.Ok? ==> r.error == Http(500, UploadUrlFailedText)
  {
    var dir := PreparePath(path);
    var (found, tries) := UniqueKey(b, dir + fileName);
    match found
    case Err(e) => Err(e)
    case Ok(key) =>
      CandidateInDir(dir, fileName, tries);
      match presign(key)
      case None => Err(Http(500, UploadUrlFailedText))
      case Some(url) => Ok((url, key))
  }

  /** `generate_update_url`: the old key is checked and deleted, then a
      link is made as `generate_upload_url` makes it; the deletion stands
      even when signing fails. */
  function GenerateUpdateUrl(b: Bucket, fileName: string, oldKey: string, path: string, presign: string -> Option<string>): (r: Outcome<(string, string)>)
    ensures CheckAndDelete(b, oldKey).Err? ==> r == Outcome(b, Err(CheckAndDelete(b, oldKey).error))
    ensures CheckAndDelete(b, oldKey).Ok? ==>
      r == Outcome(CheckAndDelete(b, oldKey).value, GenerateUploadUrl(CheckAndDelete(b, oldKey).value, fileName, path, presign))
  {
    match CheckAndDelete(b, oldKey)
    case Err(e) => Outcome(b, Err(e))
    case Ok(cleared) => Outcome(cleared, GenerateUploadUrl(cleared, fileName, path, presign))
  }

  // ---------------------------------------------------------------------
  // Images keep their kind
  // ---------------------------------------------------------------------

  /** The root `splitext` leaves of a named component is still named. */
  lemma RootStaysNamed(p: string)
    requires NamedBase(p)
    ensures NamedBase(SplitExt(p).0)
  {
  }

  /** Behind a folder, a named component stays the last one. */
  lemma NamedInDir(dir: string, x: string)
    requires IsDir(dir) && NamedBase(x)
    ensures NamedBase(dir + x)
  {
    var p := dir + x;
    var i :| RFind(x, '/') < i < |x| && x[i] != '.';
    assert p[|dir| + i] == x[i];
  }

  /** A named root followed by `.webp` splits back into the two. */
  lemma WebpSplits(root: string)
    requires NamedBase(root)
    ensures SplitExt(root + ".webp") == (root, ".webp")
  {
    var p := root + ".webp";
    RFindExtend(root, ".webp", '/');
    forall j | |root| < j < |p|
      ensures p[j] != '.'
    {
      assert p[j] == ".webp"[j - |root|];
    }
    RFindIs(p, '.', |root|);
    var dot := |root|;
    var i :| RFind(root, '/') < i < |root| && root[i] != '.';
    assert p[i] == root[i];
    assert p[..dot] == root;
  }

  /** Every key tried for a `.webp` name with a named root ends in
      `.webp`. */
  lemma WebpCandidate(root: string, n: nat)
    requires NamedBase(root)
    ensures EndsWith(Candidate(root + ".webp", n), ".webp")
  {
    WebpSplits(root);
  }

  /** An image uploaded under a file name with a proper base name (one that
      is not only dots) is listed among the images. */
  lemma UploadedImageListedAsImage(b: Bucket, s: Storage, f: Upload, path: string, putFault: Option<string>)
    requires IsImageKind(f.mime) && NamedBase(f.name)
    requires PutObject(b, s, f, path, putFault).result.Ok?
    ensures IsImage(PutObject(b, s, f, path, putFault).result.value)
  {
    var dir := PreparePath(path);
    var name := dir + StoredName(f);
    var key := PutObject(b, s, f, path, putFault).result.value;
    var tries := UniqueKey(b, name).1;
    assert key == Candidate(name, tries);
    StoredImageCandidate(dir, f.name, tries);
    WebpIsImage(key);
  }

  /** Every key tried for an image stored under a named file in a folder
      ends in `.webp`. */
  lemma StoredImageCandidate(dir: string, fileName: string, n: nat)
    requires IsDir(dir) && NamedBase(fileName)
    ensures EndsWith(Candidate(dir + (SplitExt(fileName).0 + ".webp"), n), ".webp")
  {
    var root := SplitExt(fileName).0;
    RootStaysNamed(fileName);
    NamedInDir(dir, root);
    assert dir + (root + ".webp") == (dir + root) + ".webp";
    WebpCandidate(dir + root, n);
  }

  /** Without such a base name the rule fails: an image whose file name is
      empty is stored as `.webp`, an image, but its second copy gets the key
      `.webp_1`, which is not listed as an image. */
  lemma NamelessImageSecondCopy()
    ensures StoredName(Upload("", Some("image/png"), true)) == ".webp"
    ensures IsImage(Candidate(".webp", 0))
    ensures EndsWith(Candidate(".webp", 1), "_1") && !IsImage(Candidate(".webp", 1))
  {
    NamelessImageStoredAsWebp();
    SecondWebpCopy();
    NotImageByLastChar(Candidate(".webp", 1));
  }

  lemma NamelessImageStoredAsWebp()
    ensures StoredName(Upload("", Some("image/png"), true)) == ".webp"
    ensures IsImage(".webp")
  {
    assert "image/png"[..5] == "image";
    assert SplitExt("") == ("", "");
    WebpIsImage(".webp");
  }

  lemma SecondWebpCopy()
    ensures EndsWith(Candidate(".webp", 1), "_1")
    ensures Candidate(".webp", 1)[|Candidate(".webp", 1)| - 1] == '1'
  {
    var c := Candidate(".webp", 1);
    DotsOnlyHasNoExtension();
    assert NatToString(1) == ['1'];
    assert c == ".webp" + "_" + ['1'];
    assert c[|c| - 2..] == "_1";
  }

  lemma DotsOnlyHasNoExtension()
    ensures SplitExt(".webp") == (".webp", "")
  {
    RFindIs(".webp", '/', -1);
    RFindIs(".webp", '.', 0);
  }

  /** A key whose last character ends none of the image extensions, in
      either case, is not an image. */
  lemma NotImageByLastChar(key: string)
    requires key != [] && key[|key| - 1] !in {'g', 'G', 'f', 'F', 'p', 'P'}
    ensures !IsImage(key)
  {
    var k := AsciiLower(key);
    assert k[|k| - 1] !in {'g', 'f', 'p'};
    OtherLastChar(k, ".png");
    OtherLastChar(k, ".jpg");
    OtherLastChar(k, ".jpeg");
    OtherLastChar(k, ".webp");
    OtherLastChar(k, ".gif");
  }

  lemma OtherLastChar(k: string, suffix: string)
    requires k != [] && suffix != [] && k[|k| - 1] != suffix[|suffix| - 1]
    ensures !EndsWith(k, suffix)
  {
  }
}
