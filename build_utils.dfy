/**
 * The decisions of the program builder in bin/utils.js: which built `.so`
 * file to take, where to copy it, and whether the installed SDK matches the
 * expected channel. The file system is replaced by inputs: whether the
 * preferred file exists, the directory listing, and the files' contents.
 */
module BuildUtils {
  import opened Wrappers

  const SoSuffix := ".so"

  /** path.join for two segments, without Node's normalisation of `.`, `..` and repeated slashes. */
  function Join(dir: string, name: string): (p: string)
    ensures name != "" ==> EndsWith(p, name)
    ensures name == "" ==> p == dir
    ensures StartsWith(p, dir)
  {
    if dir == "" then name
    else if name == "" then dir
    else if dir[|dir| - 1] == '/' then dir + name
    else dir + "/" + name
  }

  /** The position of the last slash in `p`, if any. */
  function LastSlash(p: string): (r: Option<nat>)
    ensures r.Some? ==> r.value < |p| && p[r.value] == '/' && forall j :: r.value < j < |p| ==> p[j] != '/'
    ensures r.None? ==> forall j :: 0 <= j < |p| ==> p[j] != '/'
  {
    if p == [] then None
    else if p[|p| - 1] == '/' then Some(|p| - 1)
    else
      var r := LastSlash(p[..|p| - 1]);
      assert forall j :: 0 <= j < |p| - 1 ==> p[..|p| - 1][j] == p[j];
      r
  }

  /** `p` without its trailing slashes, keeping a leading one. */
  function TrimTrailingSlashes(p: string): (q: string)
    ensures |q| <= |p| && q == p[..|q|]
    ensures forall j :: |q| <= j < |p| ==> p[j] == '/'
    ensures |p| > 0 ==> 0 < |q| && (|q| == 1 || q[|q| - 1] != '/')
  {
    if |p| > 1 && p[|p| - 1] == '/' then
      var q := TrimTrailingSlashes(p[..|p| - 1]);
      assert p[..|p| - 1][..|q|] == p[..|q|];
      assert forall j :: |q| <= j < |p| - 1 ==> p[..|p| - 1][j] == p[j];
      q
    else p
  }

  /**
   * path.dirname (POSIX): trailing slashes are skipped, then everything
   * before the last slash is kept. With no slash past the first character
   * the result is "/" for a rooted path and "." otherwise; a rooted path
   * whose last slash is its second character gives "//".
   */
  function Dirname(p: string): (d: string)
    ensures var q := TrimTrailingSlashes(p);
      (forall j :: 1 <= j < |q| ==> q[j] != '/') ==> d == (if |p| > 0 && p[0] == '/' then "/" else ".")
    ensures var q := TrimTrailingSlashes(p);
      forall k :: 1 <= k < |q| && q[k] == '/' && (forall j :: k < j < |q| ==> q[j] != '/') ==>
        d == (if k == 1 && p[0] == '/' then "//" else p[..k])
  {
    var q := TrimTrailingSlashes(p);
    var k := LastSlash(q);
    if k.None? || k.value == 0 then (if |p| > 0 && p[0] == '/' then "/" else ".")
    else if k.value == 1 && p[0] == '/' then "//"
    else p[..k.value]
  }

  /** Node's results on trailing, leading and repeated slashes. */
  lemma DirnameExamples()
    ensures Dirname("a/b/") == "a" && Dirname("a/") == "." && Dirname("/a/") == "/"
    ensures Dirname("a/b") == "a" && Dirname("//a") == "//" && Dirname("a//b") == "a/" && Dirname("") == "."
  {
    assert TrimTrailingSlashes("a/b/") == "a/b";
    assert TrimTrailingSlashes("a/") == "a";
    assert TrimTrailingSlashes("/a/") == "/a";
  }

  /** `program` with every `-` replaced by `_` (the package name as Cargo writes the library). */
  function Underscored(program: string): (r: string)
    ensures |r| == |program|
    ensures forall i :: 0 <= i < |program| ==> r[i] == (if program[i] == '-' then '_' else program[i])
  {
    if program == [] then []
    else [if program[0] == '-' then '_' else program[0]] + Underscored(program[1..])
  }

  /** The position of the first entry of `files` that ends in ".so", if any. */
  function FirstSoFile(files: seq<string>): (r: Option<nat>)
    ensures r.Some? ==> (r.value < |files| && EndsWith(files[r.value], SoSuffix)
      && forall j :: 0 <= j < r.value ==> !EndsWith(files[j], SoSuffix))
    ensures r.None? ==> forall j :: 0 <= j < |files| ==> !EndsWith(files[j], SoSuffix)
  {
    if files == [] then None
    else if EndsWith(files[0], SoSuffix) then Some(0)
    else
      var r := FirstSoFile(files[1..]);
      if r.Some? then Some(r.value + 1) else None
  }

  /** The file the builder tries first: the program name with dashes as underscores, plus ".so", in the profile directory. */
  function PreferredSoPath(program: string, profilePath: string): string
  {
    Join(profilePath, Underscored(program) + SoSuffix)
  }

  /**
   * What getSoFilePath returns: the preferred file when it exists, else
   * the profile directory joined with the first `.so` entry of the listing
   * (or with "" when there is none); "" when the listing throws.
   */
  function SoFilePath(program: string, profilePath: string, preferredExists: bool, listing: Option<seq<string>>): (path: string)
    ensures preferredExists ==> path == PreferredSoPath(program, profilePath)
    ensures !preferredExists && listing.None? ==> path == ""
    ensures !preferredExists && listing.Some? && FirstSoFile(listing.value).Some? ==> EndsWith(path, SoSuffix)
    ensures !preferredExists && listing.Some? && FirstSoFile(listing.value).None? ==> path == profilePath
  {
    if preferredExists then PreferredSoPath(program, profilePath)
    else if listing.None? then ""
    else
      var i := FirstSoFile(listing.value);
      Join(profilePath, if i.Some? then listing.value[i.value] else "")
  }

  /**
   * getSoFilePath: `preferredExists` is fs.existsSync of the preferred path,
   * `listing` is fs.readdirSync of the profile directory (None when it throws).
   * The listing is searched in order, stopping at the first `.so` entry.
   */
  method GetSoFilePath(program: string, profilePath: string, preferredExists: bool, listing: Option<seq<string>>)
    returns (path: string)
    ensures path == SoFilePath(program, profilePath, preferredExists, listing)
    ensures preferredExists ==> path == PreferredSoPath(program, profilePath)
    ensures !preferredExists && listing.None? ==> path == ""
  {
    if preferredExists {
      return PreferredSoPath(program, profilePath);
    }
    if listing.None? {
      return "";
    }
    var files := listing.value;
    var soFile := "";
    var i := 0;
    while i < |files|
      invariant 0 <= i <= |files|
      invariant forall j :: 0 <= j < i ==> !EndsWith(files[j], SoSuffix)
      invariant soFile == ""
    {
      if EndsWith(files[i], SoSuffix) {
        soFile := files[i];
        break;
      }
      i := i + 1;
    }
    FirstSoFileUnique(files, i);
    return Join(profilePath, soFile);
  }

  /** The first `.so` entry is the one every earlier entry is not. */
  lemma FirstSoFileUnique(files: seq<string>, i: nat)
    requires i <= |files|
    requires forall j :: 0 <= j < i ==> !EndsWith(files[j], SoSuffix)
    requires i < |files| ==> EndsWith(files[i], SoSuffix)
    ensures FirstSoFile(files) == if i < |files| then Some(i) else None
  {
  }

  /** The choices getSoFilePath makes, in the order it makes them. */
  lemma SoFilePathCases(program: string, profilePath: string, preferredExists: bool, files: seq<string>)
    ensures preferredExists ==>
      SoFilePath(program, profilePath, preferredExists, Some(files)) == PreferredSoPath(program, profilePath)
    ensures !preferredExists ==> forall i ::
      (0 <= i < |files| && EndsWith(files[i], SoSuffix) && forall j :: 0 <= j < i ==> !EndsWith(files[j], SoSuffix))
      ==> SoFilePath(program, profilePath, preferredExists, Some(files)) == Join(profilePath, files[i])
    ensures !preferredExists && (forall j :: 0 <= j < |files| ==> !EndsWith(files[j], SoSuffix)) ==>
      SoFilePath(program, profilePath, preferredExists, Some(files)) == profilePath
  {
    forall i | 0 <= i < |files| && EndsWith(files[i], SoSuffix) && (forall j :: 0 <= j < i ==> !EndsWith(files[j], SoSuffix))
      ensures FirstSoFile(files) == Some(i)
    {
      FirstSoFileUnique(files, i);
    }
  }

  /**
   * As written, a profile directory without any `.so` file still yields a
   * non-empty path (the directory itself), so the caller's emptiness check
   * cannot report the missing build output.
   */
  lemma MissingSoFileNotReported()
    ensures SoFilePath("my-prog", "target/release", false, Some(["libfoo.d", "deps"])) == "target/release"
    ensures BuildTarget("my-prog", "", SoFilePath("my-prog", "target/release", false, Some(["libfoo.d", "deps"]))).Some?
  {
    var files := ["libfoo.d", "deps"];
    assert !EndsWith(files[0], SoSuffix) by { assert files[0][5] != SoSuffix[0]; }
    assert !EndsWith(files[1], SoSuffix) by { assert files[1][1] != SoSuffix[0]; }
    assert FirstSoFile(files[1..]) == None by {
      assert files[1..][0] == files[1];
      assert files[1..][1..] == [];
    }
  }

  /** The evidently intended getSoFilePath: "" whenever no built `.so` file was found. */
  function SoFilePathIntended(program: string, profilePath: string, preferredExists: bool, listing: Option<seq<string>>)
    : (path: string)
    ensures path != "" ==> EndsWith(path, SoSuffix)
    ensures path == "" <==> !preferredExists && (listing.None? || FirstSoFile(listing.value).None?)
  {
    if preferredExists then PreferredSoPath(program, profilePath)
    else if listing.None? then ""
    else
      var i := FirstSoFile(listing.value);
      if i.Some? then Join(profilePath, listing.value[i.value]) else ""
  }

  /** With the intended getSoFilePath, the builder proceeds exactly when a `.so` file was found. */
  lemma IntendedReportsMissingSoFile(program: string, toPath: string, profilePath: string, preferredExists: bool, listing: Option<seq<string>>)
    ensures BuildTarget(program, toPath, SoFilePathIntended(program, profilePath, preferredExists, listing)).None?
      <==> !preferredExists && (listing.None? || FirstSoFile(listing.value).None?)
  {
  }

  /** Where runBuild creates its output directory; `toPath` is "" when the caller gave none. */
  function OutputDir(toPath: string): (dir: string)
    ensures toPath == "" ==> dir == "build"
    ensures toPath != "" && (EndsWith(toPath, "/") || '/' !in toPath) ==> dir == toPath
    ensures toPath != "" && !EndsWith(toPath, "/") && '/' in toPath ==>
      |dir| < |toPath| && dir == toPath[..|dir|] && (dir == "/" || dir == "//" || toPath[|dir|] == '/')
      && forall j :: |dir| < j < |toPath| ==> toPath[j] != '/'
  {
    if toPath == "" then "build"
    else if EndsWith(toPath, "/") || '/' !in toPath then toPath
    else Dirname(toPath)
  }

  /** Where runBuild copies the built file: `toPath` itself when it names a `.so` file, else `program`.so in the output directory. */
  function OutputFile(program: string, toPath: string): (file: string)
    ensures EndsWith(file, SoSuffix)
    ensures EndsWith(toPath, SoSuffix) ==> file == toPath
  {
    if EndsWith(toPath, SoSuffix) then toPath else Join(OutputDir(toPath), program + SoSuffix)
  }

  /** A copy planned by runBuild: the built file, the directory to create and the destination. */
  datatype Copy = Copy(source: string, outputDir: string, outputFile: string)

  /** runBuild after the build: nothing when getSoFilePath returned "", otherwise the copy it performs. */
  function BuildTarget(program: string, toPath: string, soFilePath: string): (r: Option<Copy>)
    ensures r.None? <==> soFilePath == ""
    ensures r.Some? ==> (r.value.source == soFilePath && r.value.outputDir == OutputDir(toPath)
      && r.value.outputFile == OutputFile(program, toPath))
  {
    if soFilePath == "" then None else Some(Copy(soFilePath, OutputDir(toPath), OutputFile(program, toPath)))
  }

  /** Without a `.so` target, the copied file lands directly inside the output directory. */
  lemma OutputFileInOutputDir(program: string, toPath: string)
    requires !EndsWith(toPath, SoSuffix)
    ensures OutputFile(program, toPath) == Join(OutputDir(toPath), program + SoSuffix)
  {
  }

  /** A bare `.so` name (no slash) is used both as the directory created and as the copy destination. */
  lemma BareSoTargetIsAlsoTheDirectory(program: string, toPath: string)
    requires EndsWith(toPath, SoSuffix) && '/' !in toPath
    ensures OutputDir(toPath) == toPath && OutputFile(program, toPath) == toPath
  {
  }

  /** A line terminator for JavaScript regular expressions: what `.` does not match. */
  predicate IsLineTerminator(c: char)
  {
    c == '\n' || c == '\r' || c == '\U{2028}' || c == '\U{2029}'
  }

  /** JavaScript's `\s`: white space and line terminators. */
  predicate IsWhitespace(c: char)
  {
    c == ' ' || c == '\t' || c == '\U{B}' || c == '\U{C}' || c == '\U{A0}' || c == '\U{1680}'
    || ('\U{2000}' <= c <= '\U{200A}') || c == '\U{202F}' || c == '\U{205F}' || c == '\U{3000}'
    || c == '\U{FEFF}' || IsLineTerminator(c)
  }

  /** `/^(.*)\s/` can match with a capture of length k: no line terminator before k, white space at k. */
  predicate CaptureAt(s: string, k: nat)
  {
    k < |s| && IsWhitespace(s[k]) && forall j :: 0 <= j < k ==> !IsLineTerminator(s[j])
  }

  /** The position of the first line terminator in `s`, or |s|. */
  function LineEnd(s: string): (n: nat)
    ensures n <= |s| && (n < |s| ==> IsLineTerminator(s[n]))
    ensures forall j :: 0 <= j < n ==> !IsLineTerminator(s[j])
  {
    if s == [] then 0
    else if IsLineTerminator(s[0]) then 0
    else
      var n := LineEnd(s[1..]);
      assert forall j :: 1 <= j < n + 1 ==> s[j] == s[1..][j - 1];
      n + 1
  }

  /** The last white-space position of `s` before `n`, if any. */
  function LastWhitespace(s: string, n: nat): (r: Option<nat>)
    requires n <= |s|
    ensures r.Some? ==> r.value < n && IsWhitespace(s[r.value]) && forall j :: r.value < j < n ==> !IsWhitespace(s[j])
    ensures r.None? ==> forall j :: 0 <= j < n ==> !IsWhitespace(s[j])
  {
    if n == 0 then None
    else if IsWhitespace(s[n - 1]) then Some(n - 1)
    else LastWhitespace(s, n - 1)
  }

  /**
   * Group 1 of `/^(.*)\s/.exec(s)`: the longest prefix free of line
   * terminators that is followed by a white-space character.
   */
  function VersionCapture(s: string): (r: Option<string>)
    ensures r.Some? ==> (CaptureAt(s, |r.value|) && r.value == s[..|r.value|]
      && forall k :: |r.value| < k < |s| ==> !CaptureAt(s, k))
    ensures r.None? ==> forall k :: 0 <= k < |s| ==> !CaptureAt(s, k)
  {
    var n := LineEnd(s);
    if n < |s| then
      Some(s[..n])
    else
      var w := LastWhitespace(s, n);
      if w.Some? then Some(s[..w.value]) else None
  }

  /**
   * checkBuildSdkVersion: the package's testnetDefaultChannel (None when
   * absent) against "v" and the version captured from version.txt, or
   * "vundefined" when nothing is captured.
   */
  function SdkVersionMatches(channel: Option<string>, versionData: string): bool
  {
    var captured := VersionCapture(versionData);
    channel == Some("v" + (if captured.Some? then captured.value else "undefined"))
  }

  /** The version check compares the channel with "v" and the greedy capture of version.txt. */
  lemma SdkVersionMatchesCapture(channel: Option<string>, versionData: string, c: string)
    requires CaptureAt(versionData, |c|) && c == versionData[..|c|]
    requires forall k :: |c| < k < |versionData| ==> !CaptureAt(versionData, k)
    ensures SdkVersionMatches(channel, versionData) <==> channel == Some("v" + c)
  {
    var r := VersionCapture(versionData);
    assert r.Some?;
    assert !(|r.value| < |c|);
    assert !(|c| < |r.value|);
  }

  /** Without any capture, the channel is compared with "vundefined". */
  lemma SdkVersionMatchesNoCapture(channel: Option<string>, versionData: string)
    requires forall k :: !CaptureAt(versionData, k)
    ensures SdkVersionMatches(channel, versionData) <==> channel == Some("vundefined")
  {
    assert VersionCapture(versionData).None?;
    assert "v" + "undefined" == "vundefined";
  }

  /** A version file whose first line is "1.3.17" matches channel "v1.3.17". */
  lemma SdkVersionExample()
    ensures SdkVersionMatches(Some("v1.3.17"), "1.3.17\n")
  {
    var s := "1.3.17\n";
    assert LineEnd(s) == 6 by {
      assert forall j :: 0 <= j < 6 ==> !IsLineTerminator(s[j]);
      assert IsLineTerminator(s[6]);
    }
    assert s[..6] == "1.3.17";
    assert "v" + "1.3.17" == "v1.3.17";
  }
}
