/** GitHub release URLs: which repositories and release components are canonical, why a
    validated URL parses in one way only, and why its path has no dot segments. */
module ReleaseUrl {
  import opened Prelude

  const GITHUB: string := "https://github.com/"

  datatype RepositoryError = NotGithubRepository | NonCanonicalGithubRepository

  predicate IsAlphanumeric(c: char) {
    'a' <= c <= 'z' || 'A' <= c <= 'Z' || '0' <= c <= '9'
  }

  predicate IsComponentChar(c: char) {
    IsAlphanumeric(c) || c == '-' || c == '_' || c == '.'
  }

  predicate AllComponentChars(s: string) {
    forall i :: 0 <= i < |s| ==> IsComponentChar(s[i])
  }

  predicate IsSafeReleaseComponent(s: string) {
    s != "" && s != "." && s != ".." && AllComponentChars(s)
  }

  predicate IsLowerHex(s: string, length: nat) {
    |s| == length && forall i :: 0 <= i < |s| ==> IsLowerHexDigit(s[i] as int)
  }

  // `str::split('/')`: one more piece than there are slashes.
  function Split(s: string): (pieces: seq<string>)
    ensures |pieces| >= 1
  {
    if s == "" then [""]
    else if s[0] == '/' then [""] + Split(s[1..])
    else
      var pieces := Split(s[1..]);
      [[s[0]] + pieces[0]] + pieces[1..]
  }

  predicate EndsWithGit(s: string) {
    |s| >= 4 && s[|s| - 4..] == ".git"
  }

  function ValidateGithubRepository(repository: string): Outcome<RepositoryError> {
    if !(GITHUB <= repository) then Fail(NotGithubRepository)
    else
      var components := Split(repository[|GITHUB|..]);
      var owner := components[0];
      var repo := if |components| > 1 then components[1] else "";
      if || owner == "" || repo == ""
         || owner == "." || owner == ".."
         || repo == "." || repo == ".."
         || |components| > 2
         || EndsWithGit(repo)
         || !AllComponentChars(owner) || !AllComponentChars(repo)
      then Fail(NonCanonicalGithubRepository)
      else Pass
  }

  function DownloadUrl(repository: string, tag: string, file: string): string {
    repository + "/releases/download/" + tag + "/" + file
  }

  /** Splitting at slashes. */

  predicate NoSlash(s: string) {
    forall i :: 0 <= i < |s| ==> s[i] != '/'
  }

  function Join(pieces: seq<string>): string
    requires pieces != []
  {
    if |pieces| == 1 then pieces[0] else pieces[0] + "/" + Join(pieces[1..])
  }

  lemma {:induction false} SplitPieces(s: string)
    ensures Join(Split(s)) == s
    ensures forall i :: 0 <= i < |Split(s)| ==> NoSlash(Split(s)[i])
  {
    if s != "" {
      SplitPieces(s[1..]);
      var rest := Split(s[1..]);
      if s[0] == '/' {
        assert ([""] + rest)[1..] == rest;
      } else {
        var pieces := Split(s);
        assert pieces[1..] == rest[1..];
        assert Join(pieces) == [s[0]] + Join(rest);
      }
    }
  }

  lemma {:induction false} SplitFirst(piece: string, rest: string)
    requires NoSlash(piece)
    ensures Split(piece) == [piece]
    ensures Split(piece + "/" + rest) == [piece] + Split(rest)
  {
    if piece == "" {
      assert "/" + rest == piece + "/" + rest;
    } else {
      SplitFirst(piece[1..], rest);
      var s := piece + "/" + rest;
      assert s[1..] == piece[1..] + "/" + rest;
      assert [piece[0]] + piece[1..] == piece;
    }
  }

  /** A canonical repository is the prefix, an owner, a slash and a name. */

  predicate IsRepositoryName(s: string) {
    IsSafeReleaseComponent(s) && !EndsWithGit(s)
  }

  lemma OwnerAndName(repository: string) returns (owner: string, repo: string)
    requires ValidateGithubRepository(repository).Pass?
    ensures IsSafeReleaseComponent(owner) && IsRepositoryName(repo)
    ensures repository == GITHUB + owner + "/" + repo
  {
    var components := Split(repository[|GITHUB|..]);
    SplitPieces(repository[|GITHUB|..]);
    owner, repo := components[0], components[1];
    assert components == [owner, repo];
    assert repository[|GITHUB|..] == owner + "/" + repo;
    assert repository == GITHUB + (owner + "/" + repo);
  }

  lemma OwnerAndNameSuffice(owner: string, repo: string)
    requires IsSafeReleaseComponent(owner) && IsRepositoryName(repo)
    ensures ValidateGithubRepository(GITHUB + owner + "/" + repo) == Pass
  {
    var repository := GITHUB + owner + "/" + repo;
    assert repository[|GITHUB|..] == owner + "/" + repo;
    assert GITHUB <= repository;
    SplitFirst(owner, repo);
    SplitFirst(repo, "");
  }

  /** What makes an artifact's location valid. */
  predicate ValidLocation(repository: string, tag: string, file: string) {
    ValidateGithubRepository(repository).Pass? && IsSafeReleaseComponent(tag) && IsSafeReleaseComponent(file)
  }

  // The piece behind the last slash is determined.
  lemma LastPiece(a: string, f: string, a': string, f': string)
    requires NoSlash(f) && NoSlash(f')
    requires a + "/" + f == a' + "/" + f'
    ensures a == a' && f == f'
  {
    var s := a + "/" + f;
    assert s[|a|] == '/' && s[|a'|] == '/';
    assert f == s[|a| + 1..] && f' == s[|a'| + 1..];
    assert forall k :: |a| < k < |s| ==> s[k] == f[k - |a| - 1];
    assert forall k :: |a'| < k < |s| ==> s[k] == f'[k - |a'| - 1];
    assert a == s[..|a|] && a' == s[..|a'|];
  }

  /** A validated download URL parses in one way: it names one repository, tag and file. */
  lemma UrlParsesUniquely(
    repository: string, tag: string, file: string,
    repository': string, tag': string, file': string)
    requires ValidLocation(repository, tag, file) && ValidLocation(repository', tag', file')
    requires DownloadUrl(repository, tag, file) == DownloadUrl(repository', tag', file')
    ensures repository == repository' && tag == tag' && file == file'
  {
    var middle := "/releases/download";
    LastPiece(repository + "/releases/download/" + tag, file, repository' + "/releases/download/" + tag', file');
    assert repository + "/releases/download/" + tag == repository + middle + "/" + tag;
    assert repository' + "/releases/download/" + tag' == repository' + middle + "/" + tag';
    LastPiece(repository + middle, tag, repository' + middle, tag');
    assert repository == (repository + middle)[..|repository|];
    assert repository' == (repository' + middle)[..|repository'|];
  }

  /** Dot-segment removal, as section 5.2.4 of RFC 3986 defines it. */

  predicate StartsWith(s: string, prefix: string) {
    prefix <= s
  }

  function UntilSlash(s: string): (n: nat)
    ensures n <= |s| && NoSlash(s[..n]) && (n < |s| ==> s[n] == '/')
  {
    if s == "" || s[0] == '/' then 0
    else
      var n := UntilSlash(s[1..]);
      assert s[..n + 1] == [s[0]] + s[1..][..n];
      1 + n
  }

  // The length of the first segment, its leading slash included.
  function FirstSegment(s: string): (n: nat)
    requires s != ""
    ensures 0 < n <= |s|
  {
    1 + UntilSlash(s[1..])
  }

  // Drops the last segment and its slash.
  function DropLastSegment(output: string): string {
    if output == "" then ""
    else if output[|output| - 1] == '/' then output[..|output| - 1]
    else DropLastSegment(output[..|output| - 1])
  }

  function RemoveDotSegments(input: string, output: string): string
    decreases |input|
  {
    if input == "" then output
    else if StartsWith(input, "../") then RemoveDotSegments(input[3..], output)
    else if StartsWith(input, "./") then RemoveDotSegments(input[2..], output)
    else if StartsWith(input, "/./") then RemoveDotSegments(input[2..], output)
    else if input == "/." then RemoveDotSegments("/", output)
    else if StartsWith(input, "/../") then RemoveDotSegments(input[3..], DropLastSegment(output))
    else if input == "/.." then RemoveDotSegments("/", DropLastSegment(output))
    else if input == "." || input == ".." then output
    else
      var n := FirstSegment(input);
      RemoveDotSegments(input[n..], output + input[..n])
  }

  // Segments, each with its leading slash.
  function Path(segments: seq<string>): string {
    if segments == [] then "" else "/" + segments[0] + Path(segments[1..])
  }

  predicate PlainSegment(s: string) {
    NoSlash(s) && s != "." && s != ".."
  }

  lemma {:induction false} UntilSlashStops(segment: string, rest: string)
    requires NoSlash(segment) && (rest == "" || rest[0] == '/')
    ensures UntilSlash(segment + rest) == |segment|
  {
    if segment == "" {
      assert segment + rest == rest;
    } else {
      UntilSlashStops(segment[1..], rest);
      assert (segment + rest)[1..] == segment[1..] + rest;
    }
  }

  lemma PlainHead(segment: string, rest: string)
    requires PlainSegment(segment) && (rest == "" || rest[0] == '/')
    ensures var input := "/" + segment + rest;
            && !StartsWith(input, "../") && !StartsWith(input, "./") && !StartsWith(input, "/./")
            && !StartsWith(input, "/../") && input != "/." && input != "/.." && input != "." && input != ".."
            && FirstSegment(input) == 1 + |segment|
            && input[..1 + |segment|] == "/" + segment && input[1 + |segment|..] == rest
  {
    var input := "/" + segment + rest;
    assert input[0] == '/';
    assert input[1..] == segment + rest;
    assert input[1..][..|segment|] == segment;
    UntilSlashStops(segment, rest);
    if StartsWith(input, "/../") {
      assert segment + rest == ".." + input[3..];
      UntilSlashStops("..", input[3..]);
    }
  }

  lemma PlainStep(segment: string, rest: string, output: string)
    requires PlainSegment(segment) && (rest == "" || rest[0] == '/')
    ensures RemoveDotSegments("/" + segment + rest, output) == RemoveDotSegments(rest, output + ("/" + segment))
  {
    hide StartsWith, FirstSegment, PlainSegment;
    PlainHead(segment, rest);
  }

  lemma NothingLeft(output: string)
    ensures RemoveDotSegments("", output) == output
  {
  }

  lemma {:induction false} PlainPathsAreFixed(segments: seq<string>, output: string)
    requires forall i :: 0 <= i < |segments| ==> PlainSegment(segments[i])
    ensures RemoveDotSegments(Path(segments), output) == output + Path(segments)
  {
    hide RemoveDotSegments;
    if segments == [] {
      NothingLeft(output);
      assert output + "" == output;
    } else {
      var segment, rest := segments[0], Path(segments[1..]);
      assert rest == "" || rest[0] == '/';
      PlainPathsAreFixed(segments[1..], output + ("/" + segment));
      PlainStep(segment, rest, output);
      assert output + ("/" + segment) + rest == output + ("/" + segment + rest);
    }
  }

  lemma AreNames(owner: string, repo: string, tag: string, file: string)
    requires IsSafeReleaseComponent(owner) && IsSafeReleaseComponent(repo)
    requires IsSafeReleaseComponent(tag) && IsSafeReleaseComponent(file)
    ensures PlainSegment(owner) && PlainSegment(repo) && PlainSegment(tag) && PlainSegment(file)
    ensures PlainSegment("releases") && PlainSegment("download")
  {
  }

  lemma UrlTail(owner: string, repo: string, tag: string, file: string)
    ensures DownloadUrl(GITHUB + owner + "/" + repo, tag, file)[18..]
         == "/" + owner + ("/" + repo + ("/releases" + ("/download" + ("/" + tag + ("/" + file)))))
  {
    var x := GITHUB + owner + "/" + repo;
    assert x[18..] == "/" + owner + ("/" + repo);
    var y := "/releases" + ("/download" + ("/" + tag + ("/" + file)));
    assert "/releases/download/" + tag + "/" + file == y;
    assert DownloadUrl(x, tag, file) == x + y;
    assert (x + y)[18..] == x[18..] + y;
  }

  lemma PathOfUrl(owner: string, repo: string, tag: string, file: string)
    ensures DownloadUrl(GITHUB + owner + "/" + repo, tag, file)[18..]
         == Path([owner, repo, "releases", "download", tag, file])
  {
    var last := [tag, file];
    assert Path(last) == "/" + tag + ("/" + file) by {
      assert last[1..] == [file] && [file][1..] == [];
      assert Path([file]) == "/" + file + "";
    }
    var middle := ["releases", "download"] + last;
    assert Path(middle) == "/releases" + ("/download" + Path(last)) by {
      assert middle[1..] == ["download"] + last && (["download"] + last)[1..] == last;
    }
    var all := [owner, repo] + middle;
    assert Path(all) == "/" + owner + ("/" + repo + Path(middle)) by {
      assert all[1..] == [repo] + middle && ([repo] + middle)[1..] == middle;
    }
    assert all == [owner, repo, "releases", "download", tag, file];
    hide Path;
    UrlTail(owner, repo, tag, file);
  }

  /** The path of a validated download URL has nothing for dot-segment removal to do. */
  lemma UrlPathIsNormal(repository: string, tag: string, file: string)
    requires ValidLocation(repository, tag, file)
    ensures var url := DownloadUrl(repository, tag, file);
            && |url| > 18
            && RemoveDotSegments(url[18..], "") == url[18..]
  {
    var owner, repo := OwnerAndName(repository);
    var url := DownloadUrl(repository, tag, file);
    AreNames(owner, repo, tag, file);
    hide ValidateGithubRepository, IsSafeReleaseComponent, IsRepositoryName, RemoveDotSegments, Path, PlainSegment;
    PathOfUrl(owner, repo, tag, file);
    PlainPathsAreFixed([owner, repo, "releases", "download", tag, file], "");
    assert "" + url[18..] == url[18..];
  }
}
