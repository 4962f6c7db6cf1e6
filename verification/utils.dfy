/** The pure part of the source-code location helpers: turning a git remote URL
    into an https base URL, and assembling a blob URL from the outputs of three
    git commands. The git subprocess calls themselves are not modelled; their
    (already stripped) outputs are parameters. */
module Utils {
  import opened Wrappers
  import opened Strings

  /** The `ValueError` that `url_to_https` raises, carrying the URL it could not
      convert; `Message` spells out its text. */
  datatype Error = ValueError(url: string)

  const MessagePrefix: string := "Unable to extract location from: "

  /** The text of the raised error: a fixed prefix, then the whole URL. */
  function Message(e: Error): (m: string)
    ensures StartsWith(m, MessagePrefix)
    ensures m[|MessagePrefix|..] == e.url
  {
    MessagePrefix + e.url
  }

  const GitAt: string := "git@"
  const Https: string := "https://"
  const GitSuffix: string := ".git"

  /** `url.split('git@')[1]` for a URL that starts with `git@`: the text after the
      leading `git@`, up to (excluding) the next `git@`, or to the end. */
  function HostPath(url: string): (seg: string)
    requires StartsWith(url, GitAt)
    ensures StartsWith(url[|GitAt|..], seg)
    ensures forall j :: 0 <= j < |seg| ==> !OccursAt(seg, GitAt, j)
    ensures |GitAt| + |seg| == |url| || OccursAt(url, GitAt, |GitAt| + |seg|)
  {
    var k := FindFrom(url, GitAt, |GitAt|);
    SliceHasNoEarlierOccurrence(url, GitAt, |GitAt|, k);
    url[|GitAt|..k]
  }

  /** An occurrence of `pat` inside `s[lo..hi]` is one inside `s`, so a slice that
      ends at the first occurrence after `lo` contains none. */
  lemma SliceHasNoEarlierOccurrence(s: string, pat: string, lo: nat, hi: nat)
    requires lo <= hi <= |s|
    requires forall j :: lo <= j < hi ==> !OccursAt(s, pat, j)
    ensures forall j :: 0 <= j < hi - lo ==> !OccursAt(s[lo..hi], pat, j)
  {
    forall j | 0 <= j < hi - lo
      ensures !OccursAt(s[lo..hi], pat, j)
    {
      if OccursAt(s[lo..hi], pat, j) {
        var t := s[lo..hi];
        assert forall i :: j <= i < j + |pat| ==> t[i] == s[lo + i];
        assert t[j..j + |pat|] == s[lo + j..lo + j + |pat|];
        assert OccursAt(s, pat, lo + j);
      }
    }
  }

  /** `if base.endswith('.git'): base = base[:-4]` */
  function StripGitSuffix(base: string): (r: string)
    ensures EndsWith(base, GitSuffix) ==> r + GitSuffix == base
    ensures !EndsWith(base, GitSuffix) ==> r == base
  {
    if EndsWith(base, GitSuffix) then base[..|base| - |GitSuffix|] else base
  }

  /** A URL that starts with `https://` and ends with `.git` is at least twelve
      characters long, so removing the suffix never cuts into the scheme. */
  lemma StripKeepsScheme(base: string)
    requires StartsWith(base, Https)
    ensures StartsWith(StripGitSuffix(base), Https)
  {
    if EndsWith(base, GitSuffix) {
      var n := |base|;
      assert base[n - |GitSuffix|] == '.';
      assert forall i :: 0 <= i < |Https| ==> base[i] == Https[i] && Https[i] != '.';
      assert n >= |Https| + |GitSuffix|;
      assert StripGitSuffix(base)[..|Https|] == base[..|Https|];
    }
  }

  /** No URL starts with both `git@` and `https://`. */
  lemma SchemesExclusive(url: string)
    ensures !(StartsWith(url, GitAt) && StartsWith(url, Https))
  {
    if StartsWith(url, GitAt) {
      assert url[0] == GitAt[0] != Https[0];
    }
  }

  /** `r` is `base` with one trailing `.git` removed if there is one, else `base` itself. */
  predicate StripsOneSuffix(base: string, r: string)
  {
    && (EndsWith(base, GitSuffix) ==> r + GitSuffix == base)
    && (!EndsWith(base, GitSuffix) ==> r == base)
  }

  /** `url_to_https(url)`: an `https://` URL passes through, an scp-style
      `git@host:path` remote becomes `https://host/path`, and one trailing `.git`
      is dropped; any other URL raises. */
  function UrlToHttps(url: string): (r: Result<string, Error>)
    ensures r.Failure? <==> !StartsWith(url, GitAt) && !StartsWith(url, Https)
    ensures r.Failure? ==> r.error == ValueError(url)
    ensures r.Success? ==> StartsWith(r.value, Https)
    ensures StartsWith(url, Https) ==> r.Success? && StripsOneSuffix(url, r.value)
    ensures StartsWith(url, GitAt) ==> r.Success? && StripsOneSuffix(Https + ReplaceFirst(HostPath(url), ':', '/'), r.value)
  {
    SchemesExclusive(url);
    if StartsWith(url, GitAt) then
      var base := Https + ReplaceFirst(HostPath(url), ':', '/');
      StripKeepsScheme(base);
      Success(StripGitSuffix(base))
    else if StartsWith(url, Https) then
      StripKeepsScheme(url);
      Success(StripGitSuffix(url))
    else
      Failure(ValueError(url))
  }

  /** The blob URL of a file: the base URL, `/blob/`, the commit id, `/`, the
      directory relative to the repository root (empty, or ending in `/`), and the
      file name. */
  function BlobUrl(base: string, commitId: string, relPath: string, fileName: string): (loc: string)
    ensures StartsWith(loc, base + "/blob/" + commitId + "/")
    ensures EndsWith(loc, relPath + fileName)
    ensures |loc| == |base| + 6 + |commitId| + 1 + |relPath| + |fileName|
  {
    var head := base + "/blob/" + commitId + "/";
    var loc := head + (relPath + fileName);
    assert loc[..|head|] == head;
    assert loc[|head|..] == relPath + fileName;
    loc
  }

  /** `get_location`'s final string assembly, from the repository's remote URL, the
      file's last commit id, its directory relative to the repository root, and its
      base name: the blob URL under the https form of the remote, or the error
      `url_to_https` raised. */
  function GetLocation(repoUrl: string, commitId: string, relPath: string, fileName: string): (r: Result<string, Error>)
    ensures r.Failure? <==> UrlToHttps(repoUrl).Failure?
    ensures r.Failure? ==> r.error == UrlToHttps(repoUrl).error
    ensures r.Success? ==> r.value == BlobUrl(UrlToHttps(repoUrl).value, commitId, relPath, fileName)
    ensures r.Success? ==> StartsWith(r.value, Https)
  {
    match UrlToHttps(repoUrl)
    case Failure(e) => Failure(e)
    case Success(base) =>
      var loc := BlobUrl(base, commitId, relPath, fileName);
      assert loc[..|Https|] == base[..|Https|];
      Success(loc)
  }

  /** An occurrence in a suffix of `s` is an occurrence in `s`, shifted. */
  lemma OccursInSuffix(s: string, pat: string, lo: nat, j: nat)
    requires lo <= |s|
    ensures OccursAt(s[lo..], pat, j) <==> OccursAt(s, pat, lo + j)
  {
    if j + |pat| <= |s| - lo {
      assert forall i :: j <= i < j + |pat| ==> s[lo..][i] == s[lo + i];
      assert s[lo..][j..j + |pat|] == s[lo + j..lo + j + |pat|];
    }
  }

  /** When no `git@` follows the leading one, the host/path segment is the whole
      rest of the URL. */
  lemma HostPathIsWholeTail(url: string)
    requires StartsWith(url, GitAt)
    requires forall j :: 0 <= j < |url| - |GitAt| ==> !OccursAt(url[|GitAt|..], GitAt, j)
    ensures HostPath(url) == url[|GitAt|..]
  {
    var seg := HostPath(url);
    if |GitAt| + |seg| < |url| {
      OccursInSuffix(url, GitAt, |GitAt|, |seg|);
      assert false;
    }
  }

  /** The usual scp-style remote `git@host:path.git` becomes `https://host/path`;
      colons inside `path` are kept. */
  lemma ScpRemoteToHttps(host: string, path: string)
    requires ':' !in host
    requires forall j :: 0 <= j < |host + ":" + path + GitSuffix| ==> !OccursAt(host + ":" + path + GitSuffix, GitAt, j)
    ensures UrlToHttps(GitAt + host + ":" + path + GitSuffix) == Success(Https + host + "/" + path)
  {
    var seg := host + ":" + path + GitSuffix;
    var url := GitAt + seg;
    assert url == GitAt + host + ":" + path + GitSuffix;
    assert url[|GitAt|..] == seg;
    HostPathIsWholeTail(url);
    assert seg == host + [':'] + (path + GitSuffix);
    ScpSegmentToHttps(url, host, path);
  }

  /** The rewriting half of `ScpRemoteToHttps`, once the segment is known. */
  lemma ScpSegmentToHttps(url: string, host: string, path: string)
    requires ':' !in host
    requires StartsWith(url, GitAt) && HostPath(url) == host + [':'] + (path + GitSuffix)
    ensures UrlToHttps(url) == Success(Https + host + "/" + path)
  {
    var want := Https + host + "/" + path;
    var base := Https + ReplaceFirst(HostPath(url), ':', '/');
    assert base == want + GitSuffix by {
      ReplaceFirstAfter(host, ':', '/', path + GitSuffix);
      Regroup(Https, host, path, GitSuffix);
    }
    StripAppendedSuffix(want);
  }

  /** Appending `.git` and stripping it again gives back the URL. */
  lemma StripAppendedSuffix(w: string)
    ensures StripGitSuffix(w + GitSuffix) == w
  {
    assert EndsWith(w + GitSuffix, GitSuffix);
    assert (w + GitSuffix)[..|w|] == w;
  }

  /** Concatenation regrouped: `a + (host/path + b)` is `(a + host/path) + b`. */
  lemma Regroup(a: string, host: string, path: string, b: string)
    ensures a + (host + "/" + path + b) == (a + host + "/" + path) + b
  {
  }

  /** The blob URL can be taken apart again: after `<base>/blob/` comes the commit
      id up to the next `/`, then the relative path and the file name. Commit ids
      are hexadecimal, so they hold no `/`. */
  lemma LocationDecomposes(base: string, commitId: string, relPath: string, fileName: string)
    requires '/' !in commitId
    ensures var loc := BlobUrl(base, commitId, relPath, fileName);
            var tail := loc[|base| + 6..];
            && loc[..|base|] == base
            && loc[|base|..|base| + 6] == "/blob/"
            && tail[..IndexOf(tail, '/')] == commitId
            && tail[IndexOf(tail, '/') + 1..] == relPath + fileName
  {
    var loc := BlobUrl(base, commitId, relPath, fileName);
    var tail := commitId + ['/'] + (relPath + fileName);
    assert loc == base + "/blob/" + tail;
    assert loc[|base| + 6..] == tail;
    IndexOfAfter(commitId, '/', relPath + fileName);
  }

  /** A plain `https://` URL passes through. */
  lemma HttpsUrlPassesThrough()
    ensures UrlToHttps("https://github.com/org/repo") == Success("https://github.com/org/repo")
  {
    var p := "https://github.com/org/repo";
    assert StartsWith(p, Https);
    assert p[|p| - 1] != GitSuffix[3];
  }

  /** Only one of two trailing `.git` suffixes is removed. */
  lemma DoubleGitSuffixLosesOne()
    ensures UrlToHttps("https://github.com/org/repo.git.git") == Success("https://github.com/org/repo.git")
  {
    var u := "https://github.com/org/repo.git.git";
    assert StartsWith(u, Https);
    assert u == "https://github.com/org/repo.git" + GitSuffix;
    StripAppendedSuffix("https://github.com/org/repo.git");
  }

  /** A plain `http://` URL is refused. */
  lemma HttpUrlRefused()
    ensures UrlToHttps("http://github.com/org/repo.git") == Failure(ValueError("http://github.com/org/repo.git"))
  {
    var h := "http://github.com/org/repo.git";
    assert h[0] != GitAt[0];
    assert h[4] != Https[4];
  }
}
