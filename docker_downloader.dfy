/** Downloading an image from Docker Hub (easyWslLib/DockerDownloader.cs):
    parsing the image reference, reading layer digests and sizes out of the
    manifest text, the resource guard, the per-layer token and path
    bookkeeping, and the tar argument string that combines the layers.
    HTTP requests are answered by oracles given as parameters; the requests
    the downloader issues are returned as a trace. */
module DockerDownloader {
  import opened Text
  import SecurityLogger

  // -----------------------------------------------------------------------
  // Errors
  // -----------------------------------------------------------------------

  /** What DownloadImage can throw. */
  datatype DownloadError =
    | DockerException    // the downloader's own exception
    | RequestFailed      // an exception from the HTTP helpers or the JSON reader
    | NoLayerDigests     // RemoveAt(0) on an empty list of digest matches
    | SizeUnreadable     // Convert.ToInt64 on an empty or too large digit string
    | SizeSumOverflow    // the checked sum of the sizes leaves the long range
    | DownloadFailed     // the platform's file download threw

  // -----------------------------------------------------------------------
  // Image references
  // -----------------------------------------------------------------------

  datatype ImageReference = ImageReference(repository: string, tag: string)

  /** The second '/'-separated piece of a reference that holds a '/'. */
  function SecondSegment(image: string): string
    requires '/' in image
  {
    UpTo(After(image, '/'), '/')
  }

  /** The reference parse of DownloadImage. With a '/': when the second
      '/'-piece holds a ':', the tag is the text after that ':' (up to any
      further ':') and the repository is everything before the first ':' of
      the whole reference; otherwise the tag is "latest" and the repository
      is the whole reference. Without a '/': a reference with no ':' is
      refused; otherwise the repository is "library/" and the text before
      the first ':', and the tag the text after it. */
  function ParseReference(image: string): (r: Result<ImageReference, DownloadError>)
    ensures r.Failure? <==> '/' !in image && ':' !in image
    ensures r.Failure? ==> r.error == DockerException
    ensures '/' in image && ':' in SecondSegment(image) ==>
      r == Success(ImageReference(UpTo(image, ':'), UpTo(After(SecondSegment(image), ':'), ':')))
    ensures '/' in image && ':' !in SecondSegment(image) ==> r == Success(ImageReference(image, "latest"))
    ensures '/' !in image && ':' in image ==>
      r == Success(ImageReference("library/" + UpTo(image, ':'), UpTo(After(image, ':'), ':')))
  {
    if '/' in image then
      var imageArray := Split(image, '/');
      assert imageArray == [UpTo(image, '/')] + Split(After(image, '/'), '/');
      if |imageArray| < 2 then Failure(DockerException)
      else if ':' in imageArray[1] then
        Success(ImageReference(Split(image, ':')[0], Split(imageArray[1], ':')[1]))
      else Success(ImageReference(image, "latest"))
    else
      var imageArray := Split(image, ':');
      if |imageArray| < 2 then Failure(DockerException)
      else Success(ImageReference("library/" + imageArray[0], imageArray[1]))
  }

  /** An official image "name:tag" is read back as library/name and tag. */
  lemma OfficialImageParsed(name: string, tag: string)
    requires '/' !in name && ':' !in name && '/' !in tag && ':' !in tag
    ensures ParseReference(name + ":" + tag) == Success(ImageReference("library/" + name, tag))
  {
    UpToAfterConcat(name, ':', tag);
    assert name + ":" + tag == name + [':'] + tag;
  }

  /** "namespace/name:tag" is read back as namespace/name and tag. */
  lemma NamespacedImageParsed(namespace: string, name: string, tag: string)
    requires '/' !in namespace && ':' !in namespace && '/' !in name && ':' !in name
    requires '/' !in tag && ':' !in tag
    ensures ParseReference(namespace + "/" + name + ":" + tag) == Success(ImageReference(namespace + "/" + name, tag))
  {
    var image := namespace + "/" + name + ":" + tag;
    assert image == namespace + ['/'] + (name + [':'] + tag);
    UpToAfterConcat(namespace, '/', name + [':'] + tag);
    assert SecondSegment(image) == name + [':'] + tag;
    UpToAfterConcat(name, ':', tag);
    assert image == (namespace + "/" + name) + [':'] + tag;
    UpToAfterConcat(namespace + "/" + name, ':', tag);
  }

  /** "namespace/name" without a tag gets the tag "latest". */
  lemma NamespacedUntaggedParsed(namespace: string, name: string)
    requires '/' !in namespace && '/' !in name && ':' !in name
    ensures ParseReference(namespace + "/" + name) == Success(ImageReference(namespace + "/" + name, "latest"))
  {
    UpToAfterConcat(namespace, '/', name);
    assert namespace + "/" + name == namespace + ['/'] + name;
  }

  /** Only the second '/'-piece is searched for a tag: in "a/b/c:t" the tag
      is lost, and the whole reference, ':' included, becomes the
      repository. */
  lemma DeepReferenceKeepsColon(first: string, second: string, rest: string)
    requires '/' !in first && '/' !in second && ':' !in second
    ensures ParseReference(first + "/" + second + "/" + rest)
      == Success(ImageReference(first + "/" + second + "/" + rest, "latest"))
  {
    var image := first + "/" + second + "/" + rest;
    assert image == first + ['/'] + (second + ['/'] + rest);
    UpToAfterConcat(first, '/', second + ['/'] + rest);
    UpToAfterConcat(second, '/', rest);
  }

  /** A ':' with nothing after it gives an empty tag, which is not refused. */
  lemma EmptyTagAccepted(name: string)
    requires '/' !in name && ':' !in name
    ensures ParseReference(name + ":") == Success(ImageReference("library/" + name, ""))
  {
    UpToAfterConcat(name, ':', "");
    assert name + ":" == name + [':'] + "";
  }

  // -----------------------------------------------------------------------
  // Scanning the manifest text
  // -----------------------------------------------------------------------

  const DigestPrefix: string := "sha256:"
  /** "sha256:" followed by 64 word characters. */
  const DigestLength: nat := 71

  predicate IsWordRun(s: string)
  {
    forall k :: 0 <= k < |s| ==> IsWordChar(s[k])
  }

  /** The pattern sha256:\w{64} matches at position i. */
  predicate DigestAt(body: string, i: nat)
  {
    i + DigestLength <= |body| && body[i..i + |DigestPrefix|] == DigestPrefix
    && IsWordRun(body[i + |DigestPrefix|..i + DigestLength])
  }

  /** Regex.Matches for the digest pattern from position p: the leftmost
      match, then the search resumes after it. The positions found match and
      increase without overlapping. */
  function DigestMatchesFrom(body: string, p: nat): (r: seq<nat>)
    ensures forall j :: 0 <= j < |r| ==> p <= r[j] && DigestAt(body, r[j])
    ensures forall i, j :: 0 <= i < j < |r| ==> r[i] + DigestLength <= r[j]
    decreases |body| - p
  {
    if p + DigestLength > |body| then []
    else if DigestAt(body, p) then [p] + DigestMatchesFrom(body, p + DigestLength)
    else DigestMatchesFrom(body, p + 1)
  }

  /** The match at position m covers position q. */
  predicate Covers(m: nat, q: nat) { m <= q < m + DigestLength }

  /** One step of the scan: a match at p is taken and the search resumes
      after it; otherwise the search moves on by one. */
  lemma DigestScanStep(body: string, p: nat)
    requires p + DigestLength <= |body|
    ensures DigestAt(body, p) ==> DigestMatchesFrom(body, p) == [p] + DigestMatchesFrom(body, p + DigestLength)
    ensures !DigestAt(body, p) ==> DigestMatchesFrom(body, p) == DigestMatchesFrom(body, p + 1)
  {
  }

  /** The scan misses nothing: every match position q from p on lies inside
      a match found, the j-th. */
  lemma {:induction false} DigestScanComplete(body: string, p: nat, q: nat) returns (j: nat)
    requires p <= q && DigestAt(body, q)
    ensures j < |DigestMatchesFrom(body, p)| && Covers(DigestMatchesFrom(body, p)[j], q)
    decreases |body| - p
  {
    DigestScanStep(body, p);
    if !DigestAt(body, p) {
      j := DigestScanComplete(body, p + 1, q);
    } else if q < p + DigestLength {
      j := 0;
    } else {
      var i := DigestScanComplete(body, p + DigestLength, q);
      j := i + 1;
    }
  }

  /** The matched digest texts, in text order. */
  function Digests(body: string): (ds: seq<string>)
    ensures |ds| == |DigestMatchesFrom(body, 0)|
  {
    var ps := DigestMatchesFrom(body, 0);
    seq(|ps|, j requires 0 <= j < |ps| => body[ps[j]..ps[j] + DigestLength])
  }

  /** The matches the scan reports are exactly the leftmost ones: no match
      starts before the first reported one. */
  lemma FirstDigestIsLeftmost(body: string, q: nat)
    requires DigestAt(body, q)
    ensures Digests(body) != [] && DigestMatchesFrom(body, 0)[0] <= q
  {
    var ps := DigestMatchesFrom(body, 0);
    var j := DigestScanComplete(body, 0, q);
    assert ps[0] <= ps[j];
  }

  /** The literal "size": with its space, before the digits. */
  const SizeKey: string := "\"size\": "

  predicate SizeKeyAt(body: string, i: nat)
  {
    i + |SizeKey| <= |body| && body[i..i + |SizeKey|] == SizeKey
  }

  /** The longest run of ASCII digits starting at i (the greedy \d*). */
  function DigitRun(s: string, i: nat): (d: string)
    requires i <= |s|
    ensures i + |d| <= |s| && d == s[i..i + |d|]
    ensures forall k :: 0 <= k < |d| ==> IsAsciiDigit(d[k])
    ensures i + |d| == |s| || !IsAsciiDigit(s[i + |d|])
    decreases |s| - i
  {
    if i < |s| && IsAsciiDigit(s[i]) then [s[i]] + DigitRun(s, i + 1) else []
  }

  /** No size match starts strictly inside another one: the key cannot
      overlap itself and a digit is never a '"'. */
  lemma NoSizeKeyInside(body: string, p: nat, q: nat)
    requires SizeKeyAt(body, p)
    requires p < q < p + |SizeKey| + |DigitRun(body, p + |SizeKey|)|
    ensures !SizeKeyAt(body, q)
  {
    assert SizeKeyAt(body, q) ==> body[q] == '"' && body[q + 1] == 's' by {
      if SizeKeyAt(body, q) {
        assert body[q..q + |SizeKey|][0] == body[q] && body[q..q + |SizeKey|][1] == body[q + 1];
      }
    }
    if q < p + |SizeKey| {
      assert body[p..p + |SizeKey|][q - p] == body[q];
      if q - p == 5 {
        assert body[p..p + |SizeKey|][6] == body[q + 1];
      }
    } else {
      var d := DigitRun(body, p + |SizeKey|);
      assert d[q - p - |SizeKey|] == body[q];
    }
  }

  /** Regex.Matches for "size": \d* from position p. Because matches cannot
      overlap, the positions found are exactly the key positions from p on,
      in increasing order. */
  function SizeMatchesFrom(body: string, p: nat): (r: seq<nat>)
    ensures forall q :: q in r <==> p <= q && SizeKeyAt(body, q)
    ensures forall j :: 0 <= j < |r| - 1 ==> r[j] < r[j + 1]
    ensures forall j :: 0 <= j < |r| ==> r[j] + |SizeKey| <= |body|
    decreases |body| - p
  {
    if p + |SizeKey| > |body| then []
    else if SizeKeyAt(body, p) then
      var next := p + |SizeKey| + |DigitRun(body, p + |SizeKey|)|;
      var rest := SizeMatchesFrom(body, next);
      assert forall j :: 0 <= j < |rest| ==> next <= rest[j] by {
        forall j | 0 <= j < |rest| ensures next <= rest[j] { assert rest[j] in rest; }
      }
      assert forall q :: p < q < next ==> !SizeKeyAt(body, q) by {
        forall q | p < q < next ensures !SizeKeyAt(body, q) { NoSizeKeyInside(body, p, q); }
      }
      [p] + rest
    else SizeMatchesFrom(body, p + 1)
  }

  /** Convert.ToInt64 on the digits after the key. */
  function SizeValue(digits: string): Result<nat, DownloadError>
    requires forall k :: 0 <= k < |digits| ==> IsAsciiDigit(digits[k])
  {
    if digits == [] || DigitsValue(digits) > Int64Max then Failure(SizeUnreadable)
    else Success(DigitsValue(digits))
  }

  /** The digits of the size match at position q. */
  function SizeDigits(body: string, q: nat): string
    requires q + |SizeKey| <= |body|
  {
    DigitRun(body, q + |SizeKey|)
  }

  /** Convert.ToInt64 accepts the digits of every size match. */
  predicate SizesReadable(body: string, ps: seq<nat>)
    requires forall j :: 0 <= j < |ps| ==> ps[j] + |SizeKey| <= |body|
  {
    forall j :: 0 <= j < |ps| ==> SizeValue(SizeDigits(body, ps[j])).Success?
  }

  /** Converting every size match, in order: the list of values when every
      digit string is readable, SizeUnreadable otherwise. */
  function SizeValues(body: string, ps: seq<nat>): (r: Result<seq<nat>, DownloadError>)
    requires forall j :: 0 <= j < |ps| ==> ps[j] + |SizeKey| <= |body|
    ensures r.Success? <==> SizesReadable(body, ps)
    ensures r.Success? ==> (|r.value| == |ps|
      && forall j :: 0 <= j < |ps| ==> r.value[j] == DigitsValue(SizeDigits(body, ps[j])))
    ensures r.Failure? ==> r.error == SizeUnreadable
  {
    if ps == [] then Success([])
    else
      match SizeValue(SizeDigits(body, ps[0]))
      case Failure(e) => Failure(e)
      case Success(v) =>
        match SizeValues(body, ps[1..])
        case Failure(e) => Failure(e)
        case Success(vs) => Success([v] + vs)
  }

  /** What DownloadImage keeps of the manifest: the layer digests and the
      sizes. */
  datatype Manifest = Manifest(layers: seq<string>, sizes: seq<nat>)

  /** Lines 127-132: every digest match but the first (the config blob), and
      the value of every size match, the config's included. */
  function ReadManifest(body: string): (r: Result<Manifest, DownloadError>)
    ensures Digests(body) == [] ==> r == Failure(NoLayerDigests)
    ensures r.Success? ==> r.value.layers == Digests(body)[1..]
    ensures r.Success? ==> |r.value.sizes| == |SizeMatchesFrom(body, 0)|
    ensures r.Success? ==> forall j :: 0 <= j < |r.value.sizes| ==>
      r.value.sizes[j] == DigitsValue(SizeDigits(body, SizeMatchesFrom(body, 0)[j]))
    ensures Digests(body) != [] ==> (r.Failure? <==> !SizesReadable(body, SizeMatchesFrom(body, 0)))
    ensures r.Failure? ==> r.error == NoLayerDigests || r.error == SizeUnreadable
  {
    var digests := Digests(body);
    if |digests| == 0 then Failure(NoLayerDigests)
    else
      var values := SizeValues(body, SizeMatchesFrom(body, 0));
      if values.Failure? then Failure(values.error)
      else Success(Manifest(digests[1..], values.value))
  }

  // -----------------------------------------------------------------------
  // The resource guard
  // -----------------------------------------------------------------------

  const GiB: nat := 1024 * 1024 * 1024
  const MaxLayerSize: nat := 5 * GiB
  const MaxTotalSize: nat := 20 * GiB
  const MaxLayers: nat := 100

  function Sum(s: seq<nat>): nat
  {
    if s == [] then 0 else Sum(s[..|s| - 1]) + s[|s| - 1]
  }

  /** Sum of the sizes is at least each of them. */
  lemma {:induction false} SumBoundsEach(s: seq<nat>, i: nat)
    requires i < |s|
    ensures s[i] <= Sum(s)
  {
    if i < |s| - 1 { SumBoundsEach(s[..|s| - 1], i); }
  }

  /** The index of the first size over the per-layer limit. */
  function FirstOversized(sizes: seq<nat>): (r: Option<nat>)
    ensures r.None? <==> forall i :: 0 <= i < |sizes| ==> sizes[i] <= MaxLayerSize
    ensures r.Some? ==> (r.value < |sizes| && sizes[r.value] > MaxLayerSize
                         && forall i :: 0 <= i < r.value ==> sizes[i] <= MaxLayerSize)
  {
    if sizes == [] then None
    else if sizes[0] > MaxLayerSize then Some(0)
    else match FirstOversized(sizes[1..])
      case None => None
      case Some(i) => Some(i + 1)
  }

  /** A size in whole gigabytes, as the messages print it: divided by 1024
      three times, rounding down. */
  function WholeGB(n: nat): nat
  {
    n / 1024 / 1024 / 1024
  }

  /** The limit a manifest exceeds: the layer count, the total size, or the
      size at an index of the size list. */
  datatype Limit = TooManyLayers(count: nat) | ImageTooLarge(total: nat) | LayerTooLarge(index: nat, size: nat)

  /** The details logged for a limit. */
  function LimitMessage(limit: Limit): string
  {
    match limit
    case TooManyLayers(count) =>
      "Too many layers: " + NatToString(count) + " (max " + NatToString(MaxLayers) + ")"
    case ImageTooLarge(total) =>
      "Image too large: " + NatToString(WholeGB(total)) + " GB (max " + NatToString(WholeGB(MaxTotalSize)) + " GB)"
    case LayerTooLarge(index, size) =>
      "Layer " + NatToString(index + 1) + " too large: " + NatToString(WholeGB(size))
      + " GB (max " + NatToString(WholeGB(MaxLayerSize)) + " GB)"
  }

  /** The messages print the limits as 100 layers, 20 GB and 5 GB, and number
      the sizes from 1. */
  lemma TooManyLayersMessage(count: nat)
    ensures LimitMessage(TooManyLayers(count)) == "Too many layers: " + NatToString(count) + " (max 100)"
  {
    assert NatToString(100) == "100" by {
      assert NatToString(10) == "10";
    }
  }

  lemma ImageTooLargeMessage(total: nat)
    ensures LimitMessage(ImageTooLarge(total)) == "Image too large: " + NatToString(WholeGB(total)) + " GB (max 20 GB)"
  {
    assert WholeGB(MaxTotalSize) == 20;
    assert NatToString(20) == "20";
  }

  lemma LayerTooLargeMessage(index: nat, size: nat)
    ensures LimitMessage(LayerTooLarge(index, size))
      == "Layer " + NatToString(index + 1) + " too large: " + NatToString(WholeGB(size)) + " GB (max 5 GB)"
  {
    assert WholeGB(MaxLayerSize) == 5;
    assert NatToString(5) == "5";
  }

  /** What the guard decides. */
  datatype GuardOutcome = Admitted | Blocked(limit: Limit) | Overflow

  const BlockedEvent: string := "DOCKER_DOWNLOAD_BLOCKED"

  /** Lines 135-173: the layer count, then the checked total, then each size
      in turn; the first limit exceeded blocks the download. The index of an
      oversized layer counts the config blob's size too. */
  function Guard(layerCount: nat, sizes: seq<nat>): GuardOutcome
  {
    if layerCount > MaxLayers then Blocked(TooManyLayers(layerCount))
    else if Sum(sizes) > Int64Max then Overflow
    else if Sum(sizes) > MaxTotalSize then Blocked(ImageTooLarge(Sum(sizes)))
    else match FirstOversized(sizes)
      case Some(i) => Blocked(LayerTooLarge(i, sizes[i]))
      case None => Admitted
  }

  /** The guard admits exactly the manifests with at most 100 layers, a
      total of at most 20 GiB and no size over 5 GiB: every limit is
      inclusive. */
  lemma GuardAdmits(layerCount: nat, sizes: seq<nat>)
    ensures Guard(layerCount, sizes) == Admitted <==>
      layerCount <= MaxLayers && Sum(sizes) <= MaxTotalSize
      && forall i :: 0 <= i < |sizes| ==> sizes[i] <= MaxLayerSize
  {
  }

  /** The checks run in order: too many layers is reported whatever the
      sizes; a total over the limit is reported before any single size; an
      overflowing total is reported only once the count is within bounds. */
  lemma GuardOrder(layerCount: nat, sizes: seq<nat>)
    ensures layerCount > MaxLayers ==> Guard(layerCount, sizes) == Blocked(TooManyLayers(layerCount))
    ensures layerCount <= MaxLayers && Sum(sizes) > Int64Max ==> Guard(layerCount, sizes) == Overflow
    ensures layerCount <= MaxLayers && MaxTotalSize < Sum(sizes) <= Int64Max ==>
      Guard(layerCount, sizes) == Blocked(ImageTooLarge(Sum(sizes)))
  {
  }

  /** A single layer over 5 GiB is blocked even when the total is within
      bounds, and the first such size is the one named. */
  lemma GuardNamesFirstOversized(layerCount: nat, sizes: seq<nat>, i: nat)
    requires layerCount <= MaxLayers && Sum(sizes) <= MaxTotalSize
    requires i < |sizes| && sizes[i] > MaxLayerSize
    requires forall j :: 0 <= j < i ==> sizes[j] <= MaxLayerSize
    ensures Guard(layerCount, sizes) == Blocked(LayerTooLarge(i, sizes[i]))
  {
    assert FirstOversized(sizes) == Some(i);
  }

  /** A single size over the 20 GiB total never reaches the per-layer check:
      the whole image is reported too large first, or the sum overflows. */
  lemma HugeLayerBlocksImage(layerCount: nat, sizes: seq<nat>, i: nat)
    requires layerCount <= MaxLayers && i < |sizes| && sizes[i] > MaxTotalSize
    ensures Guard(layerCount, sizes)
      == (if Sum(sizes) > Int64Max then Overflow else Blocked(ImageTooLarge(Sum(sizes))))
  {
    SumBoundsEach(sizes, i);
  }

  /** Lines 135-173 as statements: the first limit exceeded is logged as a
      DOCKER_DOWNLOAD_BLOCKED failure; an overflowing sum throws before
      anything is logged. */
  method CheckResourceLimits(layerCount: nat, sizes: seq<nat>, log: SecurityLogger.SecurityLog) returns (g: GuardOutcome)
    modifies log`entries
    ensures g == Guard(layerCount, sizes)
    ensures log.entries == old(log.entries) + (if g.Blocked? then log.Appended(BlockedEvent, LimitMessage(g.limit), false) else [])
  {
    if layerCount > MaxLayers {
      g := Blocked(TooManyLayers(layerCount));
      log.LogSecurityEvent(BlockedEvent, LimitMessage(g.limit), false);
      return;
    }
    var totalSize := Sum(sizes);
    if totalSize > Int64Max {
      return Overflow;
    }
    if totalSize > MaxTotalSize {
      g := Blocked(ImageTooLarge(totalSize));
      log.LogSecurityEvent(BlockedEvent, LimitMessage(g.limit), false);
      return;
    }
    for i := 0 to |sizes|
      invariant forall j :: 0 <= j < i ==> sizes[j] <= MaxLayerSize
      invariant log.entries == old(log.entries)
    {
      if sizes[i] > MaxLayerSize {
        assert FirstOversized(sizes) == Some(i);
        g := Blocked(LayerTooLarge(i, sizes[i]));
        log.LogSecurityEvent(BlockedEvent, LimitMessage(g.limit), false);
        return;
      }
    }
    g := Admitted;
  }

  // -----------------------------------------------------------------------
  // Talking to the registry
  // -----------------------------------------------------------------------

  /** The answer to a token request: the request or the JSON reading threw,
      or the response was read (None when it deserialised to null). */
  datatype AuthReply = AuthError | AuthResponse(token: Option<string>)

  /** The answer to the manifest request. */
  datatype ManifestReply = ManifestError | ManifestBody(body: string)

  /** A request DownloadImage issues, in the order issued. */
  datatype Request =
    | Get(url: Url)
    | GetWithToken(url: Url, token: string)
    | DownloadBlob(url: Url, token: string, target: string)

  /** Lines 105-110 and 184-189: a null response or an empty token is a
      DockerException; a thrown request or JSON error propagates. */
  function TokenOf(reply: AuthReply): (r: Result<string, DownloadError>)
    ensures r.Success? <==> reply.AuthResponse? && reply.token.Some? && reply.token.value != []
    ensures r.Success? ==> r.value == reply.token.value
    ensures reply.AuthError? ==> r == Failure(RequestFailed)
    ensures reply.AuthResponse? && !r.Success? ==> r == Failure(DockerException)
  {
    match reply
    case AuthError => Failure(RequestFailed)
    case AuthResponse(None) => Failure(DockerException)
    case AuthResponse(Some(t)) => if t == [] then Failure(DockerException) else Success(t)
  }

  const RegistryHost: string := "registry-1.docker.io"

  /** The address a request goes to: the token endpoint for a repository
      (lines 104 and 183), the manifest of a reference (line 115) or a blob of
      a repository (line 201). */
  datatype Url =
    | TokenUrl(repository: string)
    | ManifestUrl(reference: ImageReference)
    | BlobUrl(repository: string, digest: string)

  /** The text of an address. */
  function UrlText(u: Url): string
  {
    match u
    case TokenUrl(repository) =>
      "https://auth.docker.io/token?service=registry.docker.io&scope=repository:" + repository + ":pull"
    case ManifestUrl(reference) =>
      "https://" + RegistryHost + "/v2/" + reference.repository + "/manifests/" + reference.tag
    case BlobUrl(repository, digest) =>
      "https://" + RegistryHost + "/v2/" + repository + "/blobs/" + digest
  }

  function LayerName(k: nat): string
  {
    "layer" + NatToString(k) + ".tar.bz"
  }

  /** The path recorded for layer k (counting from 1). */
  function LayerPath(tmpDirectory: string, k: nat): string
  {
    tmpDirectory + "\\" + LayerName(k)
  }

  /** The paths recorded for layers 1 to n, in order. */
  function LayerPaths(tmpDirectory: string, n: nat): (ps: seq<string>)
    ensures |ps| == n
    ensures forall j :: 0 <= j < n ==> ps[j] == LayerPath(tmpDirectory, j + 1)
  {
    if n == 0 then [] else LayerPaths(tmpDirectory, n - 1) + [LayerPath(tmpDirectory, n)]
  }

  /** Distinct layers get distinct paths. */
  lemma LayerPathsDistinct(tmpDirectory: string, n: nat)
    ensures forall i, j :: 0 <= i < j < n ==> LayerPaths(tmpDirectory, n)[i] != LayerPaths(tmpDirectory, n)[j]
  {
    forall i, j | 0 <= i < j < n
      ensures LayerPaths(tmpDirectory, n)[i] != LayerPaths(tmpDirectory, n)[j]
    {
      var a := LayerPath(tmpDirectory, i + 1);
      var b := LayerPath(tmpDirectory, j + 1);
      if a == b {
        var prefix := tmpDirectory + "\\" + "layer";
        var x := NatToString(i + 1);
        var y := NatToString(j + 1);
        assert a == prefix + (x + ".tar.bz");
        assert b == prefix + (y + ".tar.bz");
        assert x + ".tar.bz" == a[|prefix|..] == y + ".tar.bz";
        assert x == (x + ".tar.bz")[..|x|];
        assert y == (y + ".tar.bz")[..|y|];
        NatToStringInjective(i + 1, j + 1);
      }
    }
  }

  // -----------------------------------------------------------------------
  // The specification of a download
  // -----------------------------------------------------------------------

  /** What the steps before the guard produce. */
  datatype Prepared = Prepared(reference: ImageReference, token: string, manifest: Manifest)

  /** Lines 73-132: parse the reference, get a token (request 0), fetch the
      manifest, read digests and sizes. */
  function Prepare(image: string, auth0: AuthReply, reply: ManifestReply): Result<Prepared, DownloadError>
  {
    match ParseReference(image)
    case Failure(e) => Failure(e)
    case Success(reference) =>
      match TokenOf(auth0)
      case Failure(e) => Failure(e)
      case Success(token) =>
        match reply
        case ManifestError => Failure(RequestFailed)
        case ManifestBody(body) =>
          if body == [] then Failure(DockerException)
          else match ReadManifest(body)
            case Failure(e) => Failure(e)
            case Success(m) => Success(Prepared(reference, token, m))
  }

  /** The requests issued before the guard. */
  function PrepareRequests(image: string, auth0: AuthReply): seq<Request>
  {
    match ParseReference(image)
    case Failure(_) => []
    case Success(reference) =>
      [Get(TokenUrl(reference.repository))]
      + match TokenOf(auth0)
        case Failure(_) => []
        case Success(token) => [GetWithToken(ManifestUrl(reference), token)]
  }

  /** Layer k (counting from 1) goes through: its token is usable and its
      download completes. */
  predicate LayerOk(auth: nat -> AuthReply, download: nat -> bool, k: nat)
  {
    TokenOf(auth(k)).Success? && download(k)
  }

  /** How the loop over the layers ends. Indices count from 0: layer i + 1
      is the one at index i. */
  datatype LoopEnd = Completed | TokenRefused(index: nat, error: DownloadError) | DownloadBroke(index: nat)

  /** The loop over layers done + 1 to n: it stops at the first layer whose
      token is refused or whose download throws. */
  function LayerLoop(auth: nat -> AuthReply, download: nat -> bool, n: nat, done: nat): LoopEnd
    decreases n - done
  {
    if done >= n then Completed
    else
      match TokenOf(auth(done + 1))
      case Failure(err) => TokenRefused(done, err)
      case Success(_) =>
        if !download(done + 1) then DownloadBroke(done)
        else LayerLoop(auth, download, n, done + 1)
  }

  /** The loop completes exactly when every layer goes through; otherwise
      it stops at the first layer that does not, with the reason. */
  lemma {:induction false} LayerLoopStopsAtFirstFailure(auth: nat -> AuthReply, download: nat -> bool, n: nat, done: nat)
    ensures var e := LayerLoop(auth, download, n, done);
      && (e.Completed? <==> forall k :: done < k <= n ==> LayerOk(auth, download, k))
      && (e.TokenRefused? ==> (done <= e.index < n && TokenOf(auth(e.index + 1)) == Failure(e.error)
                               && forall k :: done < k <= e.index ==> LayerOk(auth, download, k)))
      && (e.DownloadBroke? ==> (done <= e.index < n && TokenOf(auth(e.index + 1)).Success?
                                && !download(e.index + 1)
                                && forall k :: done < k <= e.index ==> LayerOk(auth, download, k)))
    decreases n - done
  {
    if done < n {
      if !LayerOk(auth, download, done + 1) {
        assert !(forall k :: done < k <= n ==> LayerOk(auth, download, k));
      } else {
        LayerLoopStopsAtFirstFailure(auth, download, n, done + 1);
      }
    }
  }

  /** The result of DownloadImage once the loop ends. */
  function LoopResult(e: LoopEnd): Result<(), DownloadError>
  {
    match e
    case Completed => Success(())
    case TokenRefused(_, err) => Failure(err)
    case DownloadBroke(_) => Failure(DownloadFailed)
  }

  /** How many layer paths the loop over n layers records: the path of a
      layer is recorded after its token is accepted and before its download
      starts, so a broken download leaves its path behind. */
  function Started(e: LoopEnd, n: nat): nat
  {
    match e
    case Completed => n
    case TokenRefused(i, _) => i
    case DownloadBroke(i) => i + 1
  }

  /** The requests of the loop from layer done + 1 on: a token request, then
      (when the token is usable) the blob download into the temporary
      directory. */
  function LayerRequests(tmpDirectory: string, repository: string, layers: seq<string>,
                         auth: nat -> AuthReply, download: nat -> bool, done: nat): seq<Request>
    requires done <= |layers|
    decreases |layers| - done
  {
    if done == |layers| then []
    else
      [Get(TokenUrl(repository))]
      + match TokenOf(auth(done + 1))
        case Failure(_) => []
        case Success(token) =>
          [BlobRequest(tmpDirectory, repository, layers, token, done)]
          + (if download(done + 1) then LayerRequests(tmpDirectory, repository, layers, auth, download, done + 1) else [])
  }

  /** A turn of the loop whose token is refused ends it after one request. */
  lemma LayerStepRefused(tmpDirectory: string, repository: string, layers: seq<string>,
                         auth: nat -> AuthReply, download: nat -> bool, i: nat)
    requires i < |layers| && TokenOf(auth(i + 1)).Failure?
    ensures LayerRequests(tmpDirectory, repository, layers, auth, download, i) == [Get(TokenUrl(repository))]
    ensures LayerLoop(auth, download, |layers|, i) == TokenRefused(i, TokenOf(auth(i + 1)).error)
  {
  }

  /** The blob request of layer i + 1, given its token. */
  function BlobRequest(tmpDirectory: string, repository: string, layers: seq<string>, token: string, i: nat): Request
    requires i < |layers|
  {
    DownloadBlob(BlobUrl(repository, layers[i]), token, PathCombine(tmpDirectory, LayerName(i + 1)))
  }

  /** A turn of the loop whose download breaks ends it after two requests. */
  lemma LayerStepBroken(tmpDirectory: string, repository: string, layers: seq<string>,
                        auth: nat -> AuthReply, download: nat -> bool, i: nat)
    requires i < |layers| && TokenOf(auth(i + 1)).Success? && !download(i + 1)
    ensures LayerRequests(tmpDirectory, repository, layers, auth, download, i)
      == [Get(TokenUrl(repository)), BlobRequest(tmpDirectory, repository, layers, TokenOf(auth(i + 1)).value, i)]
    ensures LayerLoop(auth, download, |layers|, i) == DownloadBroke(i)
  {
  }

  /** A turn of the loop that goes through issues two requests and moves on. */
  lemma LayerStepDone(tmpDirectory: string, repository: string, layers: seq<string>,
                      auth: nat -> AuthReply, download: nat -> bool, i: nat)
    requires i < |layers| && LayerOk(auth, download, i + 1)
    ensures LayerRequests(tmpDirectory, repository, layers, auth, download, i)
      == [Get(TokenUrl(repository)), BlobRequest(tmpDirectory, repository, layers, TokenOf(auth(i + 1)).value, i)]
         + LayerRequests(tmpDirectory, repository, layers, auth, download, i + 1)
    ensures LayerLoop(auth, download, |layers|, i) == LayerLoop(auth, download, |layers|, i + 1)
  {
  }

  /** The whole observable outcome of DownloadImage. */
  datatype Run = Run(result: Result<(), DownloadError>, requests: seq<Request>, started: nat, blocked: Option<Limit>)

  /** DownloadImage as a function of the replies it gets: its result, the
      requests it issues, how many layer paths it records and the message it
      logs when the guard blocks. */
  function ExpectedRun(tmpDirectory: string, image: string, auth: nat -> AuthReply, reply: ManifestReply,
                       download: nat -> bool): Run
  {
    var pre := PrepareRequests(image, auth(0));
    match Prepare(image, auth(0), reply)
    case Failure(e) => Run(Failure(e), pre, 0, None)
    case Success(p) =>
      var n := |p.manifest.layers|;
      match Guard(n, p.manifest.sizes)
      case Blocked(limit) => Run(Failure(DockerException), pre, 0, Some(limit))
      case Overflow => Run(Failure(SizeSumOverflow), pre, 0, None)
      case Admitted =>
        var end := LayerLoop(auth, download, n, 0);
        Run(LoopResult(end), pre + LayerRequests(tmpDirectory, p.reference.repository, p.manifest.layers, auth, download, 0),
            Started(end, n), None)
  }

  /** rs is, for each layer from + 1 on in manifest order, its token
      request followed by its blob download with the token it got. */
  predicate PairedInOrder(rs: seq<Request>, tmpDirectory: string, repository: string, layers: seq<string>,
                          auth: nat -> AuthReply, from: nat)
  {
    && from <= |layers|
    && |rs| == 2 * (|layers| - from)
    && forall j :: 0 <= j < |layers| - from ==>
         && rs[2 * j] == Get(TokenUrl(repository))
         && TokenOf(auth(from + j + 1)).Success?
         && rs[2 * j + 1] == BlobRequest(tmpDirectory, repository, layers, TokenOf(auth(from + j + 1)).value, from + j)
  }

  lemma PairedInOrderCons(rs: seq<Request>, tmpDirectory: string, repository: string, layers: seq<string>,
                          auth: nat -> AuthReply, from: nat)
    requires from < |layers| && TokenOf(auth(from + 1)).Success?
    requires PairedInOrder(rs, tmpDirectory, repository, layers, auth, from + 1)
    ensures PairedInOrder([Get(TokenUrl(repository)), BlobRequest(tmpDirectory, repository, layers, TokenOf(auth(from + 1)).value, from)] + rs,
                          tmpDirectory, repository, layers, auth, from)
  {
    var all := [Get(TokenUrl(repository)), BlobRequest(tmpDirectory, repository, layers, TokenOf(auth(from + 1)).value, from)] + rs;
    forall j | 0 <= j < |layers| - from
      ensures && all[2 * j] == Get(TokenUrl(repository))
              && TokenOf(auth(from + j + 1)).Success?
              && all[2 * j + 1] == BlobRequest(tmpDirectory, repository, layers, TokenOf(auth(from + j + 1)).value, from + j)
    {
      if j > 0 {
        var i := j - 1;
        assert all[2 * j] == rs[2 * i] && all[2 * j + 1] == rs[2 * i + 1];
        assert from + j + 1 == (from + 1) + i + 1;
      }
    }
  }

  /** When every layer goes through, the loop issues a token request and a
      blob download per digest, in manifest order. */
  lemma {:induction false} LayerRequestsWhenAllOk(tmpDirectory: string, repository: string, layers: seq<string>,
                                                  auth: nat -> AuthReply, download: nat -> bool, done: nat)
    requires done <= |layers|
    requires forall k :: done < k <= |layers| ==> LayerOk(auth, download, k)
    ensures PairedInOrder(LayerRequests(tmpDirectory, repository, layers, auth, download, done),
                          tmpDirectory, repository, layers, auth, done)
    decreases |layers| - done
  {
    if done < |layers| {
      assert LayerOk(auth, download, done + 1);
      LayerStepDone(tmpDirectory, repository, layers, auth, download, done);
      LayerRequestsWhenAllOk(tmpDirectory, repository, layers, auth, download, done + 1);
      PairedInOrderCons(LayerRequests(tmpDirectory, repository, layers, auth, download, done + 1),
                        tmpDirectory, repository, layers, auth, done);
    }
  }

  /** Every blob download in rs goes to a blob of the repository, with a
      non-empty token. */
  predicate BlobsAuthorised(rs: seq<Request>, repository: string)
  {
    forall i :: 0 <= i < |rs| && rs[i].DownloadBlob? ==>
      rs[i].token != [] && rs[i].url.BlobUrl? && rs[i].url.repository == repository
  }

  lemma BlobsAuthorisedAppend(a: seq<Request>, b: seq<Request>, repository: string)
    requires BlobsAuthorised(a, repository) && BlobsAuthorised(b, repository)
    ensures BlobsAuthorised(a + b, repository)
  {
    forall i | |a| <= i < |a + b|
      ensures (a + b)[i] == b[i - |a|]
    {
    }
  }

  lemma {:induction false} LayerBlobsCarryTokens(tmpDirectory: string, repository: string, layers: seq<string>,
                                                 auth: nat -> AuthReply, download: nat -> bool, done: nat)
    requires done <= |layers|
    ensures BlobsAuthorised(LayerRequests(tmpDirectory, repository, layers, auth, download, done), repository)
    decreases |layers| - done
  {
    if done < |layers| {
      var token := TokenOf(auth(done + 1));
      if token.Failure? {
        LayerStepRefused(tmpDirectory, repository, layers, auth, download, done);
      } else {
        var step := [Get(TokenUrl(repository)), BlobRequest(tmpDirectory, repository, layers, token.value, done)];
        assert BlobsAuthorised(step, repository);
        if !download(done + 1) {
          LayerStepBroken(tmpDirectory, repository, layers, auth, download, done);
        } else {
          LayerStepDone(tmpDirectory, repository, layers, auth, download, done);
          LayerBlobsCarryTokens(tmpDirectory, repository, layers, auth, download, done + 1);
          BlobsAuthorisedAppend(step, LayerRequests(tmpDirectory, repository, layers, auth, download, done + 1), repository);
        }
      }
    }
  }

  /** DownloadImage succeeds exactly when the reference parses, the first
      token is usable, the manifest is read, the guard admits the image and
      every layer's token and download go through; it then records one path
      per layer digest. */
  lemma DownloadSucceedsIff(tmpDirectory: string, image: string, auth: nat -> AuthReply, reply: ManifestReply,
                            download: nat -> bool)
    ensures var run := ExpectedRun(tmpDirectory, image, auth, reply, download);
      var p := Prepare(image, auth(0), reply);
      && (run.result.Success? <==>
            p.Success? && Guard(|p.value.manifest.layers|, p.value.manifest.sizes) == Admitted
            && forall k :: 0 < k <= |p.value.manifest.layers| ==> LayerOk(auth, download, k))
      && (run.result.Success? ==> run.started == |p.value.manifest.layers| == |Digests(reply.body)| - 1)
  {
    var run := ExpectedRun(tmpDirectory, image, auth, reply, download);
    var p := Prepare(image, auth(0), reply);
    if p.Success? {
      var n := |p.value.manifest.layers|;
      if Guard(n, p.value.manifest.sizes) == Admitted {
        var end := LayerLoop(auth, download, n, 0);
        assert run.result == LoopResult(end) && run.started == Started(end, n);
        LayerLoopStopsAtFirstFailure(auth, download, n, 0);
        assert reply.ManifestBody? && ReadManifest(reply.body).Success?;
      }
    }
  }

  /** A successful download issues the token and manifest requests, then
      for each layer digest after the config, in manifest order, a token
      request and the download of that blob into layer<k>.tar.bz. */
  lemma RequestsOnSuccess(tmpDirectory: string, image: string, auth: nat -> AuthReply, reply: ManifestReply,
                          download: nat -> bool)
    requires ExpectedRun(tmpDirectory, image, auth, reply, download).result.Success?
    ensures var run := ExpectedRun(tmpDirectory, image, auth, reply, download);
      var p := Prepare(image, auth(0), reply).value;
      && |run.requests| >= 2
      && run.requests[..2] == [Get(TokenUrl(p.reference.repository)), GetWithToken(ManifestUrl(p.reference), p.token)]
      && p.manifest.layers == Digests(reply.body)[1..]
      && PairedInOrder(run.requests[2..], tmpDirectory, p.reference.repository, p.manifest.layers, auth, 0)
  {
    var run := ExpectedRun(tmpDirectory, image, auth, reply, download);
    var p := Prepare(image, auth(0), reply).value;
    DownloadSucceedsIff(tmpDirectory, image, auth, reply, download);
    var rs := LayerRequests(tmpDirectory, p.reference.repository, p.manifest.layers, auth, download, 0);
    LayerRequestsWhenAllOk(tmpDirectory, p.reference.repository, p.manifest.layers, auth, download, 0);
    assert run.requests == PrepareRequests(image, auth(0)) + rs;
    assert run.requests[2..] == rs;
  }

  /** The requests before the guard: at most the token request and the
      manifest request, never a blob download. */
  lemma PrepareRequestsHaveNoBlob(image: string, auth0: AuthReply)
    ensures var pre := PrepareRequests(image, auth0);
      |pre| <= 2 && forall i :: 0 <= i < |pre| ==> !pre[i].DownloadBlob?
  {
  }

  /** No blob is downloaded unless the manifest was read and the guard
      admitted the image: a refused or blocked download issues only the
      requests before the guard and records no path. */
  lemma NoBlobWithoutAdmission(tmpDirectory: string, image: string, auth: nat -> AuthReply, reply: ManifestReply,
                               download: nat -> bool)
    ensures var run := ExpectedRun(tmpDirectory, image, auth, reply, download);
      var p := Prepare(image, auth(0), reply);
      !(p.Success? && Guard(|p.value.manifest.layers|, p.value.manifest.sizes) == Admitted) ==>
        run.requests == PrepareRequests(image, auth(0)) && run.started == 0
        && forall i :: 0 <= i < |run.requests| ==> !run.requests[i].DownloadBlob?
  {
    PrepareRequestsHaveNoBlob(image, auth(0));
  }

  /** Every blob download DownloadImage issues goes to a blob of the parsed
      repository with a non-empty token. */
  lemma BlobsCarryTokens(tmpDirectory: string, image: string, auth: nat -> AuthReply, reply: ManifestReply,
                         download: nat -> bool)
    ensures var run := ExpectedRun(tmpDirectory, image, auth, reply, download);
      if ParseReference(image).Success? then BlobsAuthorised(run.requests, ParseReference(image).value.repository)
      else run.requests == []
  {
    var pre := PrepareRequests(image, auth(0));
    PrepareRequestsHaveNoBlob(image, auth(0));
    var p := Prepare(image, auth(0), reply);
    if ParseReference(image).Success? {
      var repository := ParseReference(image).value.repository;
      assert BlobsAuthorised(pre, repository);
      if p.Success? && Guard(|p.value.manifest.layers|, p.value.manifest.sizes) == Admitted {
        assert p.value.reference.repository == repository;
        LayerBlobsCarryTokens(tmpDirectory, repository, p.value.manifest.layers, auth, download, 0);
        BlobsAuthorisedAppend(pre, LayerRequests(tmpDirectory, repository, p.value.manifest.layers, auth, download, 0), repository);
      }
    }
  }

  /** A refused first token stops everything after the first request; a
      blocked image logs its limit and issues nothing after the manifest
      request; an empty manifest body fails with DockerException after the
      manifest request. */
  lemma EarlyStops(tmpDirectory: string, image: string, auth: nat -> AuthReply, reply: ManifestReply,
                   download: nat -> bool)
    ensures var run := ExpectedRun(tmpDirectory, image, auth, reply, download);
      && (ParseReference(image).Success? && TokenOf(auth(0)).Failure? ==>
            run.requests == [Get(TokenUrl(ParseReference(image).value.repository))]
            && run.result == Failure(TokenOf(auth(0)).error))
      && (run.blocked.Some? <==>
            Prepare(image, auth(0), reply).Success?
            && Guard(|Prepare(image, auth(0), reply).value.manifest.layers|,
                     Prepare(image, auth(0), reply).value.manifest.sizes).Blocked?)
      && (run.blocked.Some? ==> run.result == Failure(DockerException) && |run.requests| == 2
                                && run.requests[1].GetWithToken?)
      && (reply == ManifestBody([]) && ParseReference(image).Success? && TokenOf(auth(0)).Success? ==>
            run.result == Failure(DockerException) && |run.requests| == 2)
  {
  }

  // -----------------------------------------------------------------------
  // The downloader
  // -----------------------------------------------------------------------

  /** What CombineLayers does: copy a single layer, or run tar with the
      given argument string. */
  datatype CombineAction = CopyFile(source: string, target: string) | RunTar(arguments: string)

  function InstallPath(tmpDirectory: string): string
  {
    PathCombine(tmpDirectory, "install.tar.bz")
  }

  /** " @p" for every path p, in order. */
  function TarInputs(paths: seq<string>): string
  {
    if paths == [] then "" else TarInputs(paths[..|paths| - 1]) + " @" + paths[|paths| - 1]
  }

  /** The inputs of two lists of paths, one after the other, are those of
      the two lists joined: each path keeps its place in the order. */
  lemma {:induction false} TarInputsAppend(a: seq<string>, b: seq<string>)
    ensures TarInputs(a + b) == TarInputs(a) + TarInputs(b)
    decreases |b|
  {
    if b == [] {
      assert a + b == a;
    } else {
      var b' := b[..|b| - 1];
      assert (a + b)[..|a + b| - 1] == a + b';
      assert (a + b)[|a + b| - 1] == b[|b| - 1];
      TarInputsAppend(a, b');
      AppendAssociative(TarInputs(a), TarInputs(b'), " @");
      AppendAssociative(TarInputs(a), TarInputs(b') + " @", b[|b| - 1]);
    }
  }

  /** After a download into a fresh downloader, the tar arguments name the
      layers 1 to n in order. */
  lemma TarInputsOfLayers(tmpDirectory: string, n: nat)
    requires n > 0
    ensures TarInputs(LayerPaths(tmpDirectory, n)) == TarInputs(LayerPaths(tmpDirectory, n - 1)) + " @" + LayerPath(tmpDirectory, n)
  {
    var ps := LayerPaths(tmpDirectory, n);
    assert ps[..|ps| - 1] == LayerPaths(tmpDirectory, n - 1);
  }

  class Downloader {
    const tmpDirectory: string
    /** The layer files downloaded so far; never cleared. */
    var layersPaths: seq<string>

    constructor (tmpDirectory: string)
      ensures this.tmpDirectory == tmpDirectory && layersPaths == []
    {
      this.tmpDirectory := tmpDirectory;
      layersPaths := [];
    }

    /** One turn of the loop of lines 178-203: a fresh token for layer i + 1;
        when it is usable, the path is recorded and the blob requested. */
    method FetchLayer(repository: string, layers: seq<string>, auth: nat -> AuthReply, i: nat)
      returns (layerToken: Result<string, DownloadError>, step: seq<Request>)
      requires i < |layers|
      modifies this`layersPaths
      ensures layerToken == TokenOf(auth(i + 1))
      ensures layerToken.Failure? ==> step == [Get(TokenUrl(repository))] && layersPaths == old(layersPaths)
      ensures layerToken.Success? ==>
        step == [Get(TokenUrl(repository)), BlobRequest(tmpDirectory, repository, layers, layerToken.value, i)]
        && layersPaths == old(layersPaths) + [LayerPath(tmpDirectory, i + 1)]
    {
      step := [Get(TokenUrl(repository))];
      layerToken := TokenOf(auth(i + 1));
      if layerToken.Success? {
        var layerName := LayerName(i + 1);
        layersPaths := layersPaths + [tmpDirectory + "\\" + layerName];
        step := step + [DownloadBlob(BlobUrl(repository, layers[i]), layerToken.value, PathCombine(tmpDirectory, layerName))];
      }
    }

    /** Lines 178-203: for each digest, a fresh token, then the path is
        recorded and the blob downloaded; the first refused token or broken
        download ends the loop. */
    method FetchLayers(repository: string, layers: seq<string>, auth: nat -> AuthReply, download: nat -> bool)
      returns (result: Result<(), DownloadError>, requests: seq<Request>)
      modifies this`layersPaths
      ensures var end := LayerLoop(auth, download, |layers|, 0);
        result == LoopResult(end)
        && requests == LayerRequests(tmpDirectory, repository, layers, auth, download, 0)
        && layersPaths == old(layersPaths) + LayerPaths(tmpDirectory, Started(end, |layers|))
    {
      requests := [];
      var layersCount := 0;
      while layersCount < |layers|
        invariant layersCount <= |layers|
        invariant layersPaths == old(layersPaths) + LayerPaths(tmpDirectory, layersCount)
        invariant LayerLoop(auth, download, |layers|, 0) == LayerLoop(auth, download, |layers|, layersCount)
        invariant LayerRequests(tmpDirectory, repository, layers, auth, download, 0)
               == requests + LayerRequests(tmpDirectory, repository, layers, auth, download, layersCount)
      {
        var layerToken, step := FetchLayer(repository, layers, auth, layersCount);
        if layerToken.Failure? {
          LayerStepRefused(tmpDirectory, repository, layers, auth, download, layersCount);
          return Failure(layerToken.error), requests + step;
        }
        AppendAssociative(old(layersPaths), LayerPaths(tmpDirectory, layersCount), [LayerPath(tmpDirectory, layersCount + 1)]);
        if !download(layersCount + 1) {
          LayerStepBroken(tmpDirectory, repository, layers, auth, download, layersCount);
          return Failure(DownloadFailed), requests + step;
        }
        LayerStepDone(tmpDirectory, repository, layers, auth, download, layersCount);
        AppendAssociative(requests, step, LayerRequests(tmpDirectory, repository, layers, auth, download, layersCount + 1));
        requests := requests + step;
        layersCount := layersCount + 1;
      }
      result := Success(());
    }

    /** Lines 73-132: parse the reference, get the first token, fetch the
        manifest and read its digests and sizes. */
    method FetchManifest(image: string, auth0: AuthReply, reply: ManifestReply)
      returns (prepared: Result<Prepared, DownloadError>, requests: seq<Request>)
      ensures prepared == Prepare(image, auth0, reply) && requests == PrepareRequests(image, auth0)
    {
      var parsed := ParseReference(image);
      if parsed.Failure? {
        return Failure(parsed.error), [];
      }
      var reference := parsed.value;
      requests := [Get(TokenUrl(reference.repository))];
      var token := TokenOf(auth0);
      if token.Failure? {
        return Failure(token.error), requests;
      }
      requests := requests + [GetWithToken(ManifestUrl(reference), token.value)];
      if reply.ManifestError? {
        return Failure(RequestFailed), requests;
      }
      if reply.body == [] {
        return Failure(DockerException), requests;
      }
      var manifest := ReadManifest(reply.body);
      if manifest.Failure? {
        return Failure(manifest.error), requests;
      }
      prepared := Success(Prepared(reference, token.value, manifest.value));
    }

    /** DownloadImage with the registry's replies as parameters: auth(0)
        answers the first token request and auth(k) the one before layer k;
        download(k) says whether the download of layer k completes. The
        result, the requests, the paths recorded and the log are those of
        ExpectedRun. */
    method DownloadImage(image: string, auth: nat -> AuthReply, reply: ManifestReply, download: nat -> bool,
                         log: SecurityLogger.SecurityLog)
      returns (result: Result<(), DownloadError>, requests: seq<Request>)
      modifies this`layersPaths, log`entries
      ensures var run := ExpectedRun(tmpDirectory, image, auth, reply, download);
        result == run.result && requests == run.requests
        && layersPaths == old(layersPaths) + LayerPaths(tmpDirectory, run.started)
        && log.entries == old(log.entries)
           + (if run.blocked.Some? then log.Appended(BlockedEvent, LimitMessage(run.blocked.value), false) else [])
    {
      assert old(layersPaths) + LayerPaths(tmpDirectory, 0) == old(layersPaths);
      var prepared;
      prepared, requests := FetchManifest(image, auth(0), reply);
      if prepared.Failure? {
        return Failure(prepared.error), requests;
      }
      var layers := prepared.value.manifest.layers;
      var guard := CheckResourceLimits(|layers|, prepared.value.manifest.sizes, log);
      if guard.Blocked? {
        return Failure(DockerException), requests;
      }
      if guard.Overflow? {
        return Failure(SizeSumOverflow), requests;
      }
      var layerRequests;
      result, layerRequests := FetchLayers(prepared.value.reference.repository, layers, auth, download);
      requests := requests + layerRequests;
    }

    /** CombineLayers: a single recorded path is copied to install.tar.bz;
        any other number of paths, none included, gives a tar command that
        concatenates them into it in the order recorded. */
    method CombineLayers() returns (action: CombineAction)
      ensures |layersPaths| == 1 ==> action == CopyFile(layersPaths[0], InstallPath(tmpDirectory))
      ensures |layersPaths| != 1 ==> action == RunTar(" cf " + InstallPath(tmpDirectory) + TarInputs(layersPaths))
    {
      var installTarPath := InstallPath(tmpDirectory);
      if |layersPaths| == 1 {
        return CopyFile(layersPaths[0], installTarPath);
      }
      var concatTarCommand := " cf " + installTarPath;
      for i := 0 to |layersPaths|
        invariant concatTarCommand == " cf " + installTarPath + TarInputs(layersPaths[..i])
      {
        assert layersPaths[..i + 1][..i] == layersPaths[..i];
        concatTarCommand := concatTarCommand + " @" + layersPaths[i];
      }
      assert layersPaths[..|layersPaths|] == layersPaths;
      action := RunTar(concatTarCommand);
    }
  }
}
