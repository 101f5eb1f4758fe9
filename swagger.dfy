/**
 * The two pure parts of serving Swagger UI's static assets: the extension-to-content-type
 * table, and the guard that keeps a requested asset path inside the package directory before
 * any file is read.
 */
module Swagger {
  import opened Wrappers
  import opened Text

  const OctetStream := "application/octet-stream"

  /** The known extensions and their content types. */
  const KnownContentTypes: map<string, string> := map[
    ".css" := "text/css; charset=utf-8",
    ".js" := "application/javascript; charset=utf-8",
    ".png" := "image/png",
    ".svg" := "image/svg+xml; charset=utf-8",
    ".html" := "text/html; charset=utf-8",
    ".json" := "application/json; charset=utf-8"
  ]

  /** `contentTypeByExt(ext)`: the `switch` over the six extensions, octet-stream otherwise. */
  function ContentTypeByExt(ext: string): (contentType: string)
    ensures ext in KnownContentTypes ==> contentType == KnownContentTypes[ext]
    ensures ext !in KnownContentTypes ==> contentType == OctetStream
  {
    if ext == ".css" then "text/css; charset=utf-8"
    else if ext == ".js" then "application/javascript; charset=utf-8"
    else if ext == ".png" then "image/png"
    else if ext == ".svg" then "image/svg+xml; charset=utf-8"
    else if ext == ".html" then "text/html; charset=utf-8"
    else if ext == ".json" then "application/json; charset=utf-8"
    else OctetStream
  }

  /** Extensions are matched exactly: `.CSS` or `css` is not `.css`. */
  lemma ContentTypeIsCaseSensitive()
    ensures ContentTypeByExt(".CSS") == OctetStream
    ensures ContentTypeByExt("css") == OctetStream
    ensures ContentTypeByExt("") == OctetStream
  {
  }

  // ---------------------------------------------------------------------------
  // The path guard

  /** `assetPath.replace(/\\/g, '/')` */
  function Normalise(assetPath: string): (normalized: string)
    ensures |normalized| == |assetPath|
    ensures forall i :: 0 <= i < |normalized| ==> normalized[i] != '\\'
  {
    ReplaceChar(assetPath, '\\', '/')
  }

  /** The test that sends back null: `..` anywhere, a leading `/`, or `//` anywhere. */
  predicate Unsafe(normalized: string) {
    Contains(normalized, "..") || StartsWith(normalized, "/") || Contains(normalized, "//")
  }

  /** `c` twice in a row somewhere in `s`. */
  predicate Doubled(s: string, c: char) {
    exists i :: 0 <= i < |s| - 1 && s[i] == c && s[i + 1] == c
  }

  /** `s.includes(cc)` is the same as `c` appearing twice in a row. */
  lemma ContainsPairIff(s: string, c: char)
    ensures Contains(s, [c, c]) <==> Doubled(s, c)
  {
    ContainsIff(s, [c, c]);
    if i :| OccursAt(s, [c, c], i) {
      assert s[i..i + 2][0] == s[i] && s[i..i + 2][1] == s[i + 1];
    }
    if i :| 0 <= i < |s| - 1 && s[i] == c && s[i + 1] == c {
      assert s[i..i + 2] == [c, c];
      assert OccursAt(s, [c, c], i);
    }
  }

  /**
   * The guard at the top of `getSwaggerUiAsset`: the normalised path when it is a plain
   * relative path, `None` (null) otherwise. A path is refused exactly when, after backslashes
   * become slashes, it starts with `/` or has two dots or two slashes in a row.
   */
  function GuardAssetPath(assetPath: string): (r: Option<string>)
    ensures var n := Normalise(assetPath);
      r.None? <==> (n != [] && n[0] == '/') || Doubled(n, '.') || Doubled(n, '/')
    ensures r.Some? ==> r.value == Normalise(assetPath)
  {
    var normalized := Normalise(assetPath);
    ContainsPairIff(normalized, '.');
    ContainsPairIff(normalized, '/');
    if Unsafe(normalized) then None else Some(normalized)
  }

  /** Every `..` is refused, wherever it occurs. */
  lemma ParentReferenceRejected(before: string, after: string)
    ensures GuardAssetPath(before + ".." + after).None?
  {
    var n := Normalise(before + ".." + after);
    assert n[|before|] == '.' && n[|before| + 1] == '.';
  }

  /** A backslash is a slash to the guard: a leading `\` and a `\\` or `/\` pair are refused. */
  lemma BackslashesRejected(rest: string, before: string, after: string)
    ensures GuardAssetPath("\\" + rest).None?
    ensures GuardAssetPath(before + "\\\\" + after).None?
    ensures GuardAssetPath(before + "/\\" + after).None?
  {
    assert Normalise("\\" + rest)[0] == '/';
    var m := Normalise(before + "\\\\" + after);
    assert m[|before|] == '/' && m[|before| + 1] == '/';
    var k := Normalise(before + "/\\" + after);
    assert k[|before|] == '/' && k[|before| + 1] == '/';
  }

  // ---------------------------------------------------------------------------
  // getSwaggerUiAsset

  datatype Asset<B> = Asset(contentType: string, body: B)

  /** The position of the last `c` in `s`. */
  function LastIndexOf(s: string, c: char): (r: Option<nat>)
    ensures r.Some? ==> r.value < |s| && s[r.value] == c && forall j :: r.value < j < |s| ==> s[j] != c
    ensures r.None? ==> forall j :: 0 <= j < |s| ==> s[j] != c
  {
    if s == [] then None
    else if s[|s| - 1] == c then Some(|s| - 1)
    else LastIndexOf(s[..|s| - 1], c)
  }

  /** The path without its trailing slashes: a prefix not ending in `/`, followed only by slashes. */
  function TrimTrailingSlashes(p: string): (r: string)
    ensures |r| <= |p| && r == p[..|r|]
    ensures r == [] || r[|r| - 1] != '/'
    ensures forall i :: |r| <= i < |p| ==> p[i] == '/'
  {
    if p != [] && p[|p| - 1] == '/' then TrimTrailingSlashes(p[..|p| - 1]) else p
  }

  /** The last segment of a `/`-separated path, trailing slashes ignored. */
  function BaseName(p: string): (b: string)
    ensures forall i :: 0 <= i < |b| ==> b[i] != '/'
    ensures |b| <= |TrimTrailingSlashes(p)|
    ensures b == TrimTrailingSlashes(p)[|TrimTrailingSlashes(p)| - |b|..]
    ensures |b| == |TrimTrailingSlashes(p)| || TrimTrailingSlashes(p)[|TrimTrailingSlashes(p)| - |b| - 1] == '/'
  {
    var q := TrimTrailingSlashes(p);
    match LastIndexOf(q, '/')
    case Some(k) => q[k + 1..]
    case None => q
  }

  /**
   * The extension of one path segment: from its last `.` to its end; empty when it has no dot,
   * when its only dot leads it (`.hidden`), and for `..`.
   */
  function SegmentExt(b: string): (ext: string)
    ensures ext == [] || (ext[0] == '.' && forall i :: 1 <= i < |ext| ==> ext[i] != '.')
    ensures ext == [] <==> b == ".." || forall i :: 1 <= i < |b| ==> b[i] != '.'
    ensures ext != [] ==> |ext| < |b| && ext == b[|b| - |ext|..]
  {
    match LastIndexOf(b, '.')
    case None => []
    case Some(k) => if k == 0 || b == ".." then [] else b[k..]
  }

  /** `path.extname`: the extension of the last segment of the path. */
  function ExtName(p: string): (ext: string)
    ensures ext == [] || (ext[0] == '.' && forall i :: 1 <= i < |ext| ==> ext[i] != '.' && ext[i] != '/')
    ensures ext == [] <==> BaseName(p) == ".." || forall i :: 1 <= i < |BaseName(p)| ==> BaseName(p)[i] != '.'
    ensures ext != [] ==> |ext| < |BaseName(p)| && ext == BaseName(p)[|BaseName(p)| - |ext|..]
  {
    var b := BaseName(p);
    var ext := SegmentExt(b);
    SuffixWithout(b, |b| - |ext|, '/');
    ext
  }

  /** A suffix of a string without `c` has no `c` either. */
  lemma SuffixWithout(s: string, k: nat, c: char)
    requires k <= |s|
    requires forall i :: 0 <= i < |s| ==> s[i] != c
    ensures forall i :: 0 <= i < |s| - k ==> s[k..][i] != c
  {
    forall i | 0 <= i < |s| - k ensures s[k..][i] != c {
      assert s[k..][i] == s[k + i];
    }
  }

  /**
   * `getSwaggerUiAsset(assetPath)`, with the file system as the parameter `read` (applied to
   * the normalised path, relative to the package directory): null for an unsafe path; otherwise
   * the file's bytes with the content type of its extension.
   */
  function GetSwaggerUiAsset<B>(assetPath: string, read: string -> B): (r: Option<Asset<B>>)
    ensures r.None? <==> Unsafe(Normalise(assetPath))
    ensures r.Some? ==>
      && r.value.body == read(Normalise(assetPath))
      && r.value.contentType == ContentTypeByExt(ExtName(Normalise(assetPath)))
  {
    match GuardAssetPath(assetPath)
    case None => None
    case Some(normalized) => Some(Asset(ContentTypeByExt(ExtName(normalized)), read(normalized)))
  }

  /** A refused path never reaches the file read: the answer is null whatever the file system holds. */
  lemma RejectedPathIsNotRead<B>(assetPath: string, read1: string -> B, read2: string -> B)
    requires GuardAssetPath(assetPath).None?
    ensures GetSwaggerUiAsset(assetPath, read1) == GetSwaggerUiAsset(assetPath, read2) == None
  {
  }

  /** No dot, slash or backslash. */
  predicate PlainSegment(s: string) {
    s != [] && forall i :: 0 <= i < |s| ==> s[i] != '.' && s[i] != '/' && s[i] != '\\'
  }

  /** The extension of `stem.suffix` is `.suffix`. */
  lemma ExtNameOfFile(stem: string, suffix: string)
    requires PlainSegment(stem) && PlainSegment(suffix)
    ensures ExtName(stem + "." + suffix) == "." + suffix
  {
    var p := stem + "." + suffix;
    PlainFileChars(stem, suffix);
    assert TrimTrailingSlashes(p) == p by { assert p[|p| - 1] != '/'; }
    assert BaseName(p) == p by { assert LastIndexOf(p, '/').None?; }
    SegmentExtOfFile(stem, suffix);
  }

  /** As a single segment, `stem.suffix` has the extension `.suffix`. */
  lemma SegmentExtOfFile(stem: string, suffix: string)
    requires PlainSegment(stem) && PlainSegment(suffix)
    ensures SegmentExt(stem + "." + suffix) == "." + suffix
  {
    var p := stem + "." + suffix;
    PlainFileChars(stem, suffix);
    assert p[|stem|] == '.';
    assert LastIndexOf(p, '.') == Some(|stem|);
    assert p != ".." by { assert |p| >= 3; }
    assert p[|stem|..] == "." + suffix;
  }

  /** `stem.suffix` has its only dot between the two, and no slash or backslash. */
  lemma PlainFileChars(stem: string, suffix: string)
    requires PlainSegment(stem) && PlainSegment(suffix)
    ensures var name := stem + "." + suffix;
      forall i :: 0 <= i < |name| ==> name[i] != '\\' && name[i] != '/' && (name[i] == '.' <==> i == |stem|)
  {
    var name := stem + "." + suffix;
    forall i | 0 <= i < |name| ensures name[i] != '\\' && name[i] != '/' && (name[i] == '.' <==> i == |stem|) {
      if i < |stem| { assert name[i] == stem[i]; }
      else if i > |stem| { assert name[i] == suffix[i - |stem| - 1]; }
    }
  }

  /** A path without backslashes is its own normal form. */
  lemma NormaliseWithoutBackslash(s: string)
    requires forall i :: 0 <= i < |s| ==> s[i] != '\\'
    ensures Normalise(s) == s
  {
  }

  /**
   * A plain file name such as `swagger-ui.css` passes the guard and is served with the content
   * type of its extension.
   */
  lemma PlainFileIsServed<B>(stem: string, suffix: string, read: string -> B)
    requires PlainSegment(stem) && PlainSegment(suffix)
    ensures var name := stem + "." + suffix;
      GetSwaggerUiAsset(name, read) == Some(Asset(ContentTypeByExt("." + suffix), read(name)))
  {
    var name := stem + "." + suffix;
    PlainFileGuard(stem, suffix);
    ExtNameOfFile(stem, suffix);
  }

  /** A plain file name passes the guard unchanged. */
  lemma PlainFileGuard(stem: string, suffix: string)
    requires PlainSegment(stem) && PlainSegment(suffix)
    ensures GuardAssetPath(stem + "." + suffix) == Some(stem + "." + suffix)
  {
    var name := stem + "." + suffix;
    PlainFileChars(stem, suffix);
    NormaliseWithoutBackslash(name);
  }
}
