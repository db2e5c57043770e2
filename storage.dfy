/**
 * The photo storage adapter: object keys made of a random UUID and the
 * uploaded file's extension, and save / delete / exists / url against a
 * bucket, modelled as a map from key to bytes.
 */
module Storage {
  import opened Wrappers

  newtype byte = x: int | 0 <= x < 256

  /** The bucket's contents: object key to object body. */
  type Objects = map<string, seq<byte>>

  /** An error reported by the object store, with its HTTP status code. */
  datatype ClientError = ClientError(statusCode: int)

  const URL_EXPIRY_SECONDS: int := 60

  // ---------------------------------------------------------------- splitext

  /** Index of the last `c` in `s`, or -1 (Python's `str.rfind`). */
  function RFind(s: string, c: char): (r: int)
    ensures -1 <= r < |s|
    ensures r >= 0 ==> s[r] == c
    ensures forall k :: r < k < |s| ==> s[k] != c
    decreases |s|
  {
    if s == [] then -1
    else if s[|s| - 1] == c then |s| - 1
    else RFind(s[..|s| - 1], c)
  }

  /** Some character of `p[lo..hi]` is not a dot. */
  predicate HasNonDot(p: string, lo: int, hi: int)
    requires 0 <= lo <= hi <= |p|
  {
    exists j :: lo <= j < hi && p[j] != '.'
  }

  datatype SplitName = SplitName(root: string, ext: string)

  /**
   * `os.path.splitext` on POSIX: the extension runs from the last dot of the
   * final path component, provided a non-dot character precedes that dot in
   * the component (so ".bashrc" and "..." have no extension).
   */
  function SplitExt(p: string): (r: SplitName)
    ensures r.root + r.ext == p
    ensures r.ext == [] || (r.ext[0] == '.' && forall k :: 0 < k < |r.ext| ==> r.ext[k] != '.' && r.ext[k] != '/')
    ensures r.ext != [] ==> exists j :: RFind(p, '/') < j < |r.root| && p[j] != '.'
    ensures r.ext == [] ==> forall d, j :: RFind(p, '/') < j < d < |p| && p[d] == '.' ==> p[j] == '.'
  {
    var sep := RFind(p, '/');
    var dot := RFind(p, '.');
    if dot > sep && HasNonDot(p, sep + 1, dot) then
      assert p[..dot] + p[dot..] == p;
      SplitName(p[..dot], p[dot..])
    else
      SplitName(p, [])
  }

  /** The canonical text of a UUID: 8-4-4-4-12 lower-case hex digits. */
  predicate IsUuidText(u: string) {
    && |u| == 36
    && forall k :: 0 <= k < 36 ==>
         if k == 8 || k == 13 || k == 18 || k == 23 then u[k] == '-'
         else ('0' <= u[k] <= '9' || 'a' <= u[k] <= 'f')
  }

  /**
   * `get_unique_name`: the UUID text followed by the name's extension. What
   * follows the UUID is a suffix of the name with no '/' in it, so no
   * directory and no root of the original name survive.
   */
  function GetUniqueName(uuid: string, name: string): (r: string)
    ensures |uuid| <= |r| <= |uuid| + |name|
    ensures r[..|uuid|] == uuid
    ensures r[|uuid|..] == name[|name| - (|r| - |uuid|)..]
    ensures forall k :: |uuid| <= k < |r| ==> r[k] != '/'
    ensures forall k :: |uuid| < k < |r| ==> r[k] != '.'
  {
    var ext := SplitExt(name).ext;
    assert name[|name| - |ext|..] == ext;
    uuid + ext
  }

  /** A UUID text holds neither '/' nor '.'. */
  lemma UuidHasNoSeparator(u: string)
    requires IsUuidText(u)
    ensures u != []
    ensures forall k :: 0 <= k < |u| ==> u[k] != '/' && u[k] != '.'
  {
    forall k | 0 <= k < |u| ensures u[k] != '/' && u[k] != '.' {
      assert 0 <= k < 36;
    }
  }

  /**
   * A root with no '/' and no '.', followed by an extension, splits back into
   * that root and extension.
   */
  lemma SplitPlainRoot(root: string, ext: string)
    requires root != []
    requires forall k :: 0 <= k < |root| ==> root[k] != '/' && root[k] != '.'
    requires ext == [] || (ext[0] == '.' && forall k :: 0 < k < |ext| ==> ext[k] != '.' && ext[k] != '/')
    ensures SplitExt(root + ext) == SplitName(root, ext)
  {
    var p := root + ext;
    assert forall k :: 0 <= k < |p| ==> p[k] != '/' by {
      forall k | 0 <= k < |p| ensures p[k] != '/' {
        if k >= |root| { assert p[k] == ext[k - |root|]; }
      }
    }
    assert RFind(p, '/') == -1;
    if ext == [] {
      assert p == root;
      assert RFind(p, '.') == -1;
    } else {
      assert p[|root|] == '.';
      assert forall k :: |root| < k < |p| ==> p[k] != '.' by {
        forall k | |root| < k < |p| ensures p[k] != '.' {
          assert p[k] == ext[k - |root|];
        }
      }
      assert RFind(p, '.') == |root|;
      assert p[0] != '.';
      assert HasNonDot(p, 0, |root|);
      assert p[..|root|] == root && p[|root|..] == ext;
    }
  }

  /** Splitting a unique name gives back the UUID as root and the original extension. */
  lemma UniqueNameRoundTrip(uuid: string, name: string)
    requires IsUuidText(uuid)
    ensures SplitExt(GetUniqueName(uuid, name)) == SplitName(uuid, SplitExt(name).ext)
  {
    UuidHasNoSeparator(uuid);
    SplitPlainRoot(uuid, SplitExt(name).ext);
  }

  /** `"dog.jpg"` keeps the extension `".jpg"`. */
  lemma DogJpgExtension(uuid: string)
    requires IsUuidText(uuid)
    ensures SplitExt("dog.jpg") == SplitName("dog", ".jpg")
    ensures GetUniqueName(uuid, "dog.jpg") == uuid + ".jpg"
  {
    assert "dog" + ".jpg" == "dog.jpg";
    SplitPlainRoot("dog", ".jpg");
  }

  /** Distinct UUID texts give distinct unique names for the same upload. */
  lemma UniqueNameInjective(u1: string, u2: string, name: string)
    requires |u1| == |u2|
    requires GetUniqueName(u1, name) == GetUniqueName(u2, name)
    ensures u1 == u2
  {
    assert GetUniqueName(u1, name)[..|u1|] == u1;
  }

  // ---------------------------------------------------------------- existence probe

  /** What loading an object's metadata gave: a response, or a client error. */
  datatype LoadResponse = Loaded(statusCode: int) | LoadFailed(err: ClientError)

  /**
   * `exists` from the load response: true exactly on a 200 response, false on a
   * 404 error, and any other error is raised again.
   */
  function ExistsFromResponse(resp: LoadResponse): (r: Result<bool, ClientError>)
    ensures r == Success(true) <==> resp == Loaded(200)
    ensures r == Success(false) <==> (resp.Loaded? && resp.statusCode != 200) || resp == LoadFailed(ClientError(404))
    ensures r.Failure? ==> resp.LoadFailed? && r.error == resp.err
  {
    match resp
    case Loaded(code) => Success(code == 200)
    case LoadFailed(e) => if e.statusCode == 404 then Success(false) else Failure(e)
  }

  /** The bucket's answer to a metadata load, unless the call fails with `fault`. */
  function Load(objects: Objects, name: string, fault: Option<ClientError>): LoadResponse {
    if fault.Some? then LoadFailed(fault.value)
    else if name in objects then Loaded(200)
    else LoadFailed(ClientError(404))
  }

  /** One round of `get_available_name`: the UUID drawn, and the fault (if any) of its existence probe. */
  datatype Attempt = Attempt(uuid: string, fault: Option<ClientError>)

  /** Why `get_available_name` gave no name: a probe raised, or the model's finite supply of UUIDs ran out. */
  datatype NameError = ProbeFailed(err: ClientError) | Exhausted

  /** The adapter over its bucket. */
  class S3Storage {
    const bucketName: string
    var objects: Objects

    constructor (bucketName: string, objects: Objects)
      ensures this.bucketName == bucketName && this.objects == objects
    {
      this.bucketName := bucketName;
      this.objects := objects;
    }

    /** `exists(name)` when the load call fails with `fault` (or does not fail). */
    function Exists(name: string, fault: Option<ClientError>): (r: Result<bool, ClientError>)
      reads this
      ensures fault.None? ==> r == Success(name in objects)
      ensures fault.Some? && fault.value.statusCode == 404 ==> r == Success(false)
      ensures fault.Some? && fault.value.statusCode != 404 ==> r == Failure(fault.value)
    {
      ExistsFromResponse(Load(objects, name, fault))
    }

    /** `get_available_name`: draw unique names until one does not exist. */
    function GetAvailableName(name: string, attempts: seq<Attempt>): Result<string, NameError>
      reads this
      decreases |attempts|
    {
      if attempts == [] then Failure(Exhausted)
      else
        var filename := GetUniqueName(attempts[0].uuid, name);
        match Exists(filename, attempts[0].fault)
        case Failure(e) => Failure(ProbeFailed(e))
        case Success(taken) => if taken then GetAvailableName(name, attempts[1..]) else Success(filename)
    }

    /** `_save`: store the body under `name` and return `name`; a store error propagates. */
    method Save(name: string, content: seq<byte>, fault: Option<ClientError>) returns (r: Result<string, ClientError>)
      modifies this
      ensures fault.None? ==> r == Success(name) && objects == old(objects)[name := content]
      ensures fault.Some? ==> r == Failure(fault.value) && objects == old(objects)
      ensures r.Success? ==> Exists(name, None) == Success(true)
    {
      if fault.Some? {
        return Failure(fault.value);
      }
      objects := objects[name := content];
      return Success(name);
    }

    /** `delete`: remove the object at `name`; a store error propagates. */
    method Delete(name: string, fault: Option<ClientError>) returns (raised: Option<ClientError>)
      modifies this
      ensures fault.None? ==> raised.None? && objects == old(objects) - {name}
      ensures fault.Some? ==> raised == fault && objects == old(objects)
      ensures raised.None? ==> Exists(name, None) == Success(false)
    {
      if fault.Some? {
        return fault;
      }
      objects := objects - {name};
      return None;
    }

    /**
     * `url`: a presigned `get_object` URL for this bucket and key, valid for 60
     * seconds, or None when generating it fails.
     */
    function Url(name: string, fault: Option<ClientError>): (r: Option<PresignedUrl>)
      ensures r.Some? <==> fault.None?
      ensures r.Some? ==> r.value.request == PresignRequest("get_object", bucketName, name, URL_EXPIRY_SECONDS)
    {
      if fault.Some? then None
      else Some(PresignedUrl(PresignRequest("get_object", bucketName, name, URL_EXPIRY_SECONDS)))
    }
  }

  /** What the URL is signed for; the signature itself is left abstract. */
  datatype PresignRequest = PresignRequest(clientMethod: string, bucket: string, key: string, expiresIn: int)
  datatype PresignedUrl = PresignedUrl(request: PresignRequest)

  /** The candidate key of the k-th attempt. */
  function Candidate(name: string, attempts: seq<Attempt>, k: nat): string
    requires k < |attempts|
  {
    GetUniqueName(attempts[k].uuid, name)
  }

  /**
   * `found` is the candidate of attempt k, whose probe said "absent", and the
   * probes of all earlier candidates said "exists".
   */
  ghost predicate FirstAbsentAt(s: S3Storage, name: string, attempts: seq<Attempt>, k: nat, found: string)
    requires k < |attempts|
    reads s
  {
    && found == Candidate(name, attempts, k)
    && s.Exists(found, attempts[k].fault) == Success(false)
    && forall j :: 0 <= j < k ==> s.Exists(Candidate(name, attempts, j), attempts[j].fault) == Success(true)
  }

  /**
   * A name returned by `get_available_name` is the candidate of the first
   * attempt whose probe said "absent"; every earlier candidate was probed and
   * existed.
   */
  lemma {:induction false} AvailableNameIsFirstAbsent(s: S3Storage, name: string, attempts: seq<Attempt>)
    requires s.GetAvailableName(name, attempts).Success?
    ensures exists k :: 0 <= k < |attempts| && FirstAbsentAt(s, name, attempts, k, s.GetAvailableName(name, attempts).value)
    decreases |attempts|
  {
    var found := s.GetAvailableName(name, attempts).value;
    if s.Exists(Candidate(name, attempts, 0), attempts[0].fault) == Success(false) {
      assert FirstAbsentAt(s, name, attempts, 0, found);
    } else {
      var rest := attempts[1..];
      assert s.GetAvailableName(name, rest) == s.GetAvailableName(name, attempts);
      AvailableNameIsFirstAbsent(s, name, rest);
      var k :| 0 <= k < |rest| && FirstAbsentAt(s, name, rest, k, found);
      FirstAbsentShift(s, name, attempts, k, found);
    }
  }

  /** A probe that said "exists" in front of the search moves the first absent candidate one place on. */
  lemma FirstAbsentShift(s: S3Storage, name: string, attempts: seq<Attempt>, k: nat, found: string)
    requires 0 <= k < |attempts| - 1
    requires s.Exists(Candidate(name, attempts, 0), attempts[0].fault) == Success(true)
    requires FirstAbsentAt(s, name, attempts[1..], k, found)
    ensures FirstAbsentAt(s, name, attempts, k + 1, found)
  {
    forall j | 0 <= j < k + 1
      ensures s.Exists(Candidate(name, attempts, j), attempts[j].fault) == Success(true)
    {
      if j > 0 {
        assert attempts[1..][j - 1] == attempts[j];
      }
    }
    assert attempts[1..][k] == attempts[k + 1];
  }

  /** A raising probe stops the search and its error comes out. */
  lemma ProbeErrorPropagates(s: S3Storage, name: string, attempts: seq<Attempt>, e: ClientError)
    requires attempts != [] && attempts[0].fault == Some(e) && e.statusCode != 404
    ensures s.GetAvailableName(name, attempts) == Failure(ProbeFailed(e))
  {
  }

  /** When every probe answers truthfully, running out means every candidate is stored. */
  lemma {:induction false} ExhaustedMeansAllTaken(s: S3Storage, name: string, attempts: seq<Attempt>)
    requires forall k :: 0 <= k < |attempts| ==> attempts[k].fault.None?
    ensures s.GetAvailableName(name, attempts).Success? || s.GetAvailableName(name, attempts) == Failure(Exhausted)
    ensures s.GetAvailableName(name, attempts) == Failure(Exhausted) ==>
      forall k :: 0 <= k < |attempts| ==> Candidate(name, attempts, k) in s.objects
    decreases |attempts|
  {
    if attempts != [] {
      var first := Candidate(name, attempts, 0);
      assert s.Exists(first, attempts[0].fault) == Success(first in s.objects);
      if first in s.objects {
        var rest := attempts[1..];
        assert s.GetAvailableName(name, attempts) == s.GetAvailableName(name, rest);
        assert forall k :: 0 <= k < |rest| ==> rest[k].fault.None? by {
          forall k | 0 <= k < |rest| ensures rest[k].fault.None? {
            assert rest[k] == attempts[k + 1];
          }
        }
        ExhaustedMeansAllTaken(s, name, rest);
        if s.GetAvailableName(name, attempts) == Failure(Exhausted) {
          forall k | 1 <= k < |attempts| ensures Candidate(name, attempts, k) in s.objects {
            CandidateShift(name, attempts, k);
          }
        }
      }
    }
  }

  /** Dropping the first attempt moves every later candidate one place down. */
  lemma CandidateShift(name: string, attempts: seq<Attempt>, k: nat)
    requires 1 <= k < |attempts|
    ensures Candidate(name, attempts, k) == Candidate(name, attempts[1..], k - 1)
  {
    assert attempts[1..][k - 1] == attempts[k];
  }

  /** The elements of a sequence without repetition number as many as its length. */
  lemma {:induction false} DistinctCardinality(xs: seq<string>)
    requires forall i, j :: 0 <= i < j < |xs| ==> xs[i] != xs[j]
    ensures |set x | x in xs| == |xs|
  {
    if xs != [] {
      var last := xs[|xs| - 1];
      var init := xs[..|xs| - 1];
      DistinctCardinality(init);
      assert (set x | x in xs) == (set x | x in init) + {last};
      assert last !in (set x | x in init);
    }
  }

  /** The candidate keys of all attempts, in order. */
  function Candidates(name: string, attempts: seq<Attempt>): (cands: seq<string>)
    ensures |cands| == |attempts|
    ensures forall k :: 0 <= k < |attempts| ==> cands[k] == Candidate(name, attempts, k)
  {
    seq(|attempts|, k requires 0 <= k < |attempts| => Candidate(name, attempts, k))
  }

  /** UUIDs that never repeat give candidate keys that never repeat. */
  lemma CandidatesDistinct(name: string, attempts: seq<Attempt>)
    requires forall k :: 0 <= k < |attempts| ==> IsUuidText(attempts[k].uuid)
    requires forall i, j :: 0 <= i < j < |attempts| ==> attempts[i].uuid != attempts[j].uuid
    ensures |set x | x in Candidates(name, attempts)| == |attempts|
  {
    var cands := Candidates(name, attempts);
    forall i, j | 0 <= i < j < |cands| ensures cands[i] != cands[j] {
      if cands[i] == cands[j] {
        UniqueNameInjective(attempts[i].uuid, attempts[j].uuid, name);
      }
    }
    DistinctCardinality(cands);
  }

  /**
   * More distinct candidates than stored objects: some candidate is not stored.
   */
  lemma SomeCandidateFree(s: S3Storage, name: string, attempts: seq<Attempt>)
    requires |attempts| == |s.objects| + 1
    requires forall k :: 0 <= k < |attempts| ==> IsUuidText(attempts[k].uuid)
    requires forall i, j :: 0 <= i < j < |attempts| ==> attempts[i].uuid != attempts[j].uuid
    ensures exists k :: 0 <= k < |attempts| && Candidate(name, attempts, k) !in s.objects
  {
    var cands := Candidates(name, attempts);
    var taken := set x | x in cands;
    CandidatesDistinct(name, attempts);
    if forall k :: 0 <= k < |attempts| ==> Candidate(name, attempts, k) in s.objects {
      assert taken <= s.objects.Keys;
      SubsetCardinality(taken, s.objects.Keys);
      assert false;
    }
  }

  /**
   * With truthful probes and UUIDs that never repeat, `get_available_name`
   * finds a free key within |bucket| + 1 attempts.
   */
  lemma AvailableWithinStoreSize(s: S3Storage, name: string, attempts: seq<Attempt>)
    requires |attempts| == |s.objects| + 1
    requires forall k :: 0 <= k < |attempts| ==> attempts[k].fault.None? && IsUuidText(attempts[k].uuid)
    requires forall i, j :: 0 <= i < j < |attempts| ==> attempts[i].uuid != attempts[j].uuid
    ensures s.GetAvailableName(name, attempts).Success?
  {
    ExhaustedMeansAllTaken(s, name, attempts);
    SomeCandidateFree(s, name, attempts);
  }

  lemma SubsetCardinality(a: set<string>, b: set<string>)
    requires a <= b
    ensures |a| <= |b|
  {
    assert b == a + (b - a);
  }
}
