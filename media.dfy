// The image-hosting adapter: the checks around an upload, the base64 payload taken
// from a data URL, and the public id derived from an image URL for deletion. The
// hosting service's answers are parameters.
module Media {
  import opened Common

  type byte = bv8

  // ---------------------------------------------------------------------------
  // `String.Split(char)` and `String.Join`
  // ---------------------------------------------------------------------------

  /** The position of the first `c` in `s`. */
  function IndexOf(s: string, c: char): (i: int)
    requires c in s
    ensures 0 <= i < |s| && s[i] == c && c !in s[..i]
  {
    if s[0] == c then 0
    else
      var i := IndexOf(s[1..], c) + 1;
      assert s[..i] == [s[0]] + s[1..][..i - 1];
      i
  }

  /** `parts` joined with `c` between consecutive parts. */
  function JoinWith(parts: seq<string>, c: char): string
    requires |parts| >= 1
  {
    if |parts| == 1 then parts[0] else parts[0] + [c] + JoinWith(parts[1..], c)
  }

  /**
   * `s.Split(c)`: the pieces between the occurrences of `c`, empty ones included.
   * Joining them back gives `s`, and no piece holds `c`.
   */
  function SplitOn(s: string, c: char): (parts: seq<string>)
    ensures |parts| >= 1
    ensures JoinWith(parts, c) == s
    ensures forall i :: 0 <= i < |parts| ==> c !in parts[i]
    ensures c in s <==> |parts| >= 2
    decreases |s|
  {
    if c !in s then [s]
    else
      var i := IndexOf(s, c);
      var rest := SplitOn(s[i + 1..], c);
      assert s == s[..i] + [c] + s[i + 1..];
      [s[..i]] + rest
  }

  /** Splitting a join of pieces free of `c` gives the pieces back. */
  lemma {:induction false} SplitOfJoin(parts: seq<string>, c: char)
    requires |parts| >= 1
    requires forall i :: 0 <= i < |parts| ==> c !in parts[i]
    ensures SplitOn(JoinWith(parts, c), c) == parts
  {
    if |parts| > 1 {
      var s := JoinWith(parts, c);
      var tail := JoinWith(parts[1..], c);
      assert s == parts[0] + [c] + tail;
      assert c in s by {
        assert s[|parts[0]|] == c;
      }
      var i := IndexOf(s, c);
      assert forall j :: 0 <= j < |parts[0]| ==> s[j] == parts[0][j];
      assert i <= |parts[0]| by {
        assert forall j :: 0 <= j < i ==> s[..i][j] == s[j];
      }
      assert s[..i] == parts[0];
      assert s[i + 1..] == tail;
      SplitOfJoin(parts[1..], c);
    }
  }

  // ---------------------------------------------------------------------------
  // Upload
  // ---------------------------------------------------------------------------

  /** The hosting service's answer to an upload: its status was OK, and the secure URL it gave. */
  datatype UploadResponse = UploadResponse(statusOk: bool, secureUrl: Option<string>)

  /**
   * `UploadImageAsync`: a missing or empty stream is refused before anything is sent;
   * otherwise the secure URL of a successful upload, and an exception for any other answer.
   */
  function UploadImage(streamLength: Option<int>, response: Outcome<UploadResponse>): (r: Outcome<string>)
    ensures (streamLength.None? || streamLength.value == 0) ==> r.Thrown?
    ensures r.Returned? <==>
      && streamLength.Some? && streamLength.value != 0
      && response.Returned? && response.value.statusOk && response.value.secureUrl.Some?
    ensures r.Returned? ==> r.value == response.value.secureUrl.value
  {
    if streamLength.None? || streamLength.value == 0 then Thrown
    else if response.Thrown? then Thrown
    else if response.value.statusOk && response.value.secureUrl.Some? then Returned(response.value.secureUrl.value)
    else Thrown
  }

  /** `s` is `head,payload` followed by nothing or by a further comma, with no comma in `head`. */
  predicate PayloadAt(s: string, head: string, payload: string, tail: string)
  {
    s == head + "," + payload + tail && ',' !in head && (tail == [] || tail[0] == ',')
  }

  /** The base64 payload of an image text: after the first comma (up to any second one) when there is a comma. */
  function Base64Payload(s: string): (r: string)
    ensures ',' !in s ==> r == s
    ensures ',' in s ==> ',' !in r && exists head, tail :: PayloadAt(s, head, r, tail)
  {
    if ',' in s then
      PayloadSplit(s);
      SplitOn(s, ',')[1]
    else s
  }

  /** The second piece of a split on ',' sits between the first comma and the next one. */
  lemma PayloadSplit(s: string)
    requires ',' in s
    ensures |SplitOn(s, ',')| >= 2 && exists head, tail :: PayloadAt(s, head, SplitOn(s, ',')[1], tail)
  {
    var parts := SplitOn(s, ',');
    var head := parts[0];
    var tail := if |parts| == 2 then [] else [','] + JoinWith(parts[2..], ',');
    assert JoinWith(parts[1..], ',') == parts[1] + tail;
    assert ',' !in parts[0];
    assert PayloadAt(s, head, parts[1], tail);
  }

  /** For a data URL `header,payload` with no other comma, the payload is what gets decoded. */
  lemma PayloadOfDataUrl(header: string, payload: string)
    requires ',' !in header && ',' !in payload
    ensures Base64Payload(header + "," + payload) == payload
  {
    assert header + "," + payload == JoinWith([header, payload], ',');
    SplitOfJoin([header, payload], ',');
  }

  /**
   * `UploadImageFromBase64Async`: the payload is decoded (`decode` is `Convert.FromBase64String`;
   * `None` when it throws) and the bytes uploaded.
   */
  function UploadBase64(s: string, decode: string -> Option<seq<byte>>, response: Outcome<UploadResponse>): (r: Outcome<string>)
    ensures decode(Base64Payload(s)).None? ==> r.Thrown?
    ensures decode(Base64Payload(s)) == Some([]) ==> r.Thrown?
    ensures r.Returned? <==>
      && decode(Base64Payload(s)).Some? && decode(Base64Payload(s)).value != []
      && response.Returned? && response.value.statusOk && response.value.secureUrl.Some?
    ensures r.Returned? ==> response.Returned? && response.value.secureUrl == Some(r.value)
  {
    var bytes := decode(Base64Payload(s));
    if bytes.None? then Thrown else UploadImage(Some(|bytes.value|), response)
  }

  // ---------------------------------------------------------------------------
  // Delete
  // ---------------------------------------------------------------------------

  /** `s.Replace(pattern, "")`: every occurrence, scanned left to right without overlap, removed. */
  function RemoveAll(s: string, pattern: string): (r: string)
    requires pattern != []
    ensures |r| <= |s|
    ensures !Contains(s, pattern) ==> r == s
    decreases |s|
  {
    if |s| < |pattern| then s
    else if s[..|pattern|] == pattern then
      assert StartsWith(s, pattern);
      RemoveAll(s[|pattern|..], pattern)
    else
      assert [s[0]] + s[1..] == s;
      [s[0]] + RemoveAll(s[1..], pattern)
  }

  /** Text before the first occurrence is kept as it is. */
  lemma {:induction false} RemoveAllKeepsPrefix(x: string, y: string, pattern: string)
    requires pattern != []
    requires forall i :: 0 <= i < |x| ==> !StartsWith((x + y)[i..], pattern)
    ensures RemoveAll(x + y, pattern) == x + RemoveAll(y, pattern)
    decreases |x|
  {
    if x != [] {
      var s := x + y;
      assert s[0..] == s;
      assert !StartsWith(s, pattern);
      if |s| >= |pattern| {
        assert s[1..] == x[1..] + y;
        forall i | 0 <= i < |x[1..]|
          ensures !StartsWith((x[1..] + y)[i..], pattern)
        {
          assert (x[1..] + y)[i..] == s[i + 1..];
        }
        RemoveAllKeepsPrefix(x[1..], y, pattern);
        assert RemoveAll(s, pattern) == [s[0]] + RemoveAll(s[1..], pattern);
        assert [x[0]] + x[1..] == x;
      } else {
        assert RemoveAll(s, pattern) == s && RemoveAll(y, pattern) == y;
      }
    } else {
      assert x + y == y;
    }
  }

  /** The first occurrence is removed, the text before it kept, and the scan goes on after it. */
  lemma RemoveAllFirstOccurrence(x: string, y: string, pattern: string)
    requires pattern != []
    requires forall i :: 0 <= i < |x| ==> !StartsWith((x + pattern + y)[i..], pattern)
    ensures RemoveAll(x + pattern + y, pattern) == x + RemoveAll(y, pattern)
  {
    assert x + pattern + y == x + (pattern + y);
    RemoveAllKeepsPrefix(x, pattern + y, pattern);
    assert (pattern + y)[..|pattern|] == pattern && (pattern + y)[|pattern|..] == y;
  }

  /** The public id `DeleteImageAsync` derives: the path after its first '/', with image extensions removed. */
  function PublicIdOf(path: string): (id: string)
    requires |SplitOn(path, '/')| >= 2
  {
    var parts := SplitOn(path, '/');
    RemoveAll(RemoveAll(RemoveAll(JoinWith(parts[1..], '/'), ".jpg"), ".png"), ".jpeg")
  }

  /** Before the extensions are removed, the id is exactly the path after its first '/'. */
  lemma PublicIdDropsFirstSegment(path: string)
    requires '/' in path
    ensures |SplitOn(path, '/')| >= 2
    ensures JoinWith(SplitOn(path, '/')[1..], '/') == path[IndexOf(path, '/') + 1..]
  {
    var i := IndexOf(path, '/');
    assert SplitOn(path, '/')[1..] == SplitOn(path[i + 1..], '/');
  }

  /** The first character of `s` survives removing a pattern that starts differently. */
  lemma RemoveAllKeepsHead(s: string, pattern: string)
    requires pattern != [] && s != [] && s[0] != pattern[0]
    ensures RemoveAll(s, pattern) != [] && RemoveAll(s, pattern)[0] == s[0]
  {
  }

  // The delivery URL the hosting service returns for an upload has the path
  // `/<cloud>/image/upload/v<version>/<folder>/.../<name>.<ext>`, and the public id the
  // image is stored under is `<folder>/.../<name>`.

  function DeliveryPath(cloud: string, version: nat, folders: seq<string>, name: string, ext: string): string
  {
    JoinWith(DeliverySegments(cloud, version, folders, name, ext), '/')
  }

  /** The parts of a delivery path are what they look like: none holds a '/'. */
  predicate DeliveryParts(cloud: string, folders: seq<string>, name: string, ext: string)
  {
    && '/' !in cloud && '/' !in name && '/' !in ext
    && (forall i :: 0 <= i < |folders| ==> '/' !in folders[i])
    && '.' !in name && '.' !in ext
  }

  /**
   * As written, the derived id keeps the cloud name (and the `image/upload/v<version>`
   * segments after it): it starts with the cloud name's first character.
   */
  lemma WrittenIdStartsWithCloud(cloud: string, version: nat, folders: seq<string>, name: string, ext: string)
    requires DeliveryParts(cloud, folders, name, ext)
    requires cloud != [] && cloud[0] != '.'
    ensures '/' in DeliveryPath(cloud, version, folders, name, ext)
    ensures var id := PublicIdOf(DeliveryPath(cloud, version, folders, name, ext));
      id != [] && id[0] == cloud[0]
  {
    var path := DeliveryPath(cloud, version, folders, name, ext);
    var tail := JoinWith(DeliverySegments(cloud, version, folders, name, ext)[1..], '/');
    assert path == "" + ['/'] + tail;
    assert path[0] == '/';
    assert IndexOf(path, '/') == 0;
    PublicIdDropsFirstSegment(path);
    assert path[1..] == tail;
    assert tail[0] == cloud[0];
    var joined := JoinWith(SplitOn(path, '/')[1..], '/');
    RemoveAllKeepsHead(joined, ".jpg");
    RemoveAllKeepsHead(RemoveAll(joined, ".jpg"), ".png");
    RemoveAllKeepsHead(RemoveAll(RemoveAll(joined, ".jpg"), ".png"), ".jpeg");
  }

  /** A version segment: 'v' and then digits. */
  predicate IsVersion(segment: string)
  {
    |segment| >= 2 && segment[0] == 'v' && AllDigits(segment[1..])
  }

  /** A file name without its extension: everything before its last '.', or the whole name. */
  function StripExtension(file: string): (r: string)
    ensures '.' !in file ==> r == file
  {
    var parts := SplitOn(file, '.');
    if |parts| >= 2 then JoinWith(parts[..|parts| - 1], '.') else file
  }

  /**
   * The public id of a delivery path: the segments after `/<cloud>/<type>/upload/`, with
   * a leading version segment dropped and the extension of the last one removed; `None`
   * for a path too short to name an image.
   */
  function DeliveredPublicId(path: string): (id: Option<string>)
    ensures id.Some? ==> |SplitOn(path, '/')| >= 6
  {
    var segments := SplitOn(path, '/');
    if |segments| < 6 then None
    else
      var rest := if IsVersion(segments[4]) then segments[5..] else segments[4..];
      Some(JoinWith(rest[..|rest| - 1] + [StripExtension(rest[|rest| - 1])], '/'))
  }

  /** The version segment of a delivery path holds no '/' and reads as a version. */
  lemma VersionSegment(version: nat)
    ensures '/' !in "v" + DigitText(version) && IsVersion("v" + DigitText(version))
  {
    var v := "v" + DigitText(version);
    assert v[1..] == DigitText(version);
    assert forall i :: 1 <= i < |v| ==> v[i] == DigitText(version)[i - 1];
  }

  /** The file segment `name.ext` holds no '/', and removing its extension gives `name`. */
  lemma FileSegment(name: string, ext: string)
    requires '/' !in name && '/' !in ext && '.' !in name && '.' !in ext
    ensures '/' !in name + "." + ext && StripExtension(name + "." + ext) == name
  {
    var file := name + "." + ext;
    assert forall i :: 0 <= i < |file| ==> file[i] == (if i < |name| then name[i] else if i == |name| then '.' else ext[i - |name| - 1]);
    assert file == JoinWith([name, ext], '.');
    SplitOfJoin([name, ext], '.');
  }

  /** The segments of a delivery path, in order. */
  function DeliverySegments(cloud: string, version: nat, folders: seq<string>, name: string, ext: string): seq<string>
  {
    ["", cloud, "image", "upload", "v" + DigitText(version)] + folders + [name + "." + ext]
  }

  lemma DeliverySegmentsFree(cloud: string, version: nat, folders: seq<string>, name: string, ext: string)
    requires DeliveryParts(cloud, folders, name, ext)
    ensures var segments := DeliverySegments(cloud, version, folders, name, ext);
      forall i :: 0 <= i < |segments| ==> '/' !in segments[i]
  {
    var segments := DeliverySegments(cloud, version, folders, name, ext);
    VersionSegment(version);
    FileSegment(name, ext);
    forall i | 0 <= i < |segments|
      ensures '/' !in segments[i]
    {
      if 5 <= i < 5 + |folders| {
        assert segments[i] == folders[i - 5];
      }
    }
  }

  /** With a version segment in place, the corrected id joins the segments after it. */
  lemma DeliveredIdOfSegments(path: string, segments: seq<string>)
    requires SplitOn(path, '/') == segments && |segments| >= 6 && IsVersion(segments[4])
    ensures DeliveredPublicId(path) == Some(JoinWith(segments[5..|segments| - 1] + [StripExtension(segments[|segments| - 1])], '/'))
  {
    var rest := segments[5..];
    assert rest[..|rest| - 1] == segments[5..|segments| - 1];
  }

  /** On a delivery URL, the corrected derivation gives exactly the id the image was stored under. */
  lemma DeliveredIdOfDeliveryPath(cloud: string, version: nat, folders: seq<string>, name: string, ext: string)
    requires DeliveryParts(cloud, folders, name, ext)
    ensures DeliveredPublicId(DeliveryPath(cloud, version, folders, name, ext)) == Some(JoinWith(folders + [name], '/'))
  {
    var segments := DeliverySegments(cloud, version, folders, name, ext);
    DeliverySegmentsFree(cloud, version, folders, name, ext);
    SplitOfJoin(segments, '/');
    VersionSegment(version);
    FileSegment(name, ext);
    assert segments[4] == "v" + DigitText(version);
    assert segments[5..|segments| - 1] == folders;
    DeliveredIdOfSegments(DeliveryPath(cloud, version, folders, name, ext), segments);
  }

  /**
   * Whenever the first folder of the stored id starts differently from the cloud name
   * (the avatar `avatars/a` of cloud `demo`, say), the code as written asks the service
   * to delete another id, so the old image stays; the corrected derivation names it.
   */
  lemma WrittenIdMissesImage(cloud: string, version: nat, folders: seq<string>, name: string, ext: string)
    requires DeliveryParts(cloud, folders, name, ext)
    requires cloud != [] && cloud[0] != '.'
    requires folders != [] && folders[0] != [] && folders[0][0] != cloud[0]
    ensures '/' in DeliveryPath(cloud, version, folders, name, ext)
    ensures PublicIdOf(DeliveryPath(cloud, version, folders, name, ext)) != JoinWith(folders + [name], '/')
    ensures DeliveredPublicId(DeliveryPath(cloud, version, folders, name, ext)) == Some(JoinWith(folders + [name], '/'))
  {
    WrittenIdStartsWithCloud(cloud, version, folders, name, ext);
    DeliveredIdOfDeliveryPath(cloud, version, folders, name, ext);
    var stored := folders + [name];
    assert stored[0] == folders[0];
    assert JoinWith(stored, '/')[0] == folders[0][0];
  }

  /**
   * `DeleteImageAsync`: false for a blank URL, one that does not parse (`absolutePath`
   * gives `None`), a path without '/', or a failed call; otherwise whether the service
   * answered "ok" for the public id of the path, derived by `DeliveredPublicId` (the
   * derivation as written, `PublicIdOf`, names another image).
   */
  function DeleteImage(url: Option<string>, absolutePath: string -> Option<string>, destroy: string -> Outcome<string>)
    : (deleted: bool)
    ensures Blank(url) ==> !deleted
    ensures deleted <==>
      && !Blank(url)
      && absolutePath(url.value).Some? && '/' in absolutePath(url.value).value
      && DeliveredPublicId(absolutePath(url.value).value).Some?
      && destroy(DeliveredPublicId(absolutePath(url.value).value).value) == Returned("ok")
  {
    if Blank(url) then false
    else
      var path := absolutePath(url.value);
      if path.None? then false
      else if |SplitOn(path.value, '/')| < 2 then false
      else
        var id := DeliveredPublicId(path.value);
        if id.None? then false
        else
          var answer := destroy(id.value);
          answer.Returned? && answer.value == "ok"
  }
}
