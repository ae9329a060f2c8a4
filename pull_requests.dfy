/**
 * `parseGitHubPRUrl`: recognises a pull-request conversation page on one of the
 * configured hosts and derives the URL of its "Files changed" view.
 */
module PullRequests {
  import opened Options
  import opened Urls

  /** The record `parseGitHubPRUrl` returns; `host` holds the URL's origin. */
  datatype PullRequest = PullRequest(
    host: string,
    owner: string,
    repo: string,
    number: string,
    filesUrl: string)

  /** `[^/]+` */
  predicate IsSegment(s: string)
  {
    s != [] && NoneOf(s, {'/'})
  }

  /** `\d+` */
  predicate IsNumber(s: string)
  {
    s != [] && AllDigits(s)
  }

  /** The path `/owner/repo/pull/number`. */
  function PullPath(owner: string, repo: string, number: string): string
  {
    "/" + owner + "/" + repo + "/pull/" + number
  }

  /**
   * The path test `^\/([^/]+)\/([^/]+)\/pull\/(\d+)\/?$`: the whole path is
   * `/owner/repo/pull/number`, optionally followed by one "/".
   */
  function MatchPullPath(p: string): (r: Option<(string, string, string)>)
    ensures r.Some? ==>
      var (owner, repo, number) := r.value;
      && IsSegment(owner) && IsSegment(repo) && IsNumber(number)
      && (p == PullPath(owner, repo, number) || p == PullPath(owner, repo, number) + "/")
  {
    if p == [] || p[0] != '/' then None
    else
      var (owner, afterOwner) := SplitAt(p[1..], {'/'});
      if owner == [] || afterOwner == [] then None
      else
        var (repo, afterRepo) := SplitAt(afterOwner[1..], {'/'});
        if repo == [] || !("/pull/" <= afterRepo) then None
        else
          var (number, afterNumber) := SplitAt(afterRepo[6..], {'/'});
          if !IsNumber(number) || (afterNumber != [] && afterNumber != "/") then None
          else
            PullPathPieces(p, owner, afterOwner, repo, afterRepo, number, afterNumber);
            Some((owner, repo, number))
  }

  /** Reassembles the pieces `MatchPullPath` cuts a path into. */
  lemma PullPathPieces(p: string, owner: string, afterOwner: string, repo: string,
                       afterRepo: string, number: string, afterNumber: string)
    requires |p| > 0 && p[0] == '/' && p[1..] == owner + afterOwner
    requires |afterOwner| > 0 && afterOwner[0] == '/' && afterOwner[1..] == repo + afterRepo
    requires "/pull/" <= afterRepo && afterRepo[6..] == number + afterNumber
    ensures p == PullPath(owner, repo, number) + afterNumber
  {
    assert afterRepo == "/pull/" + (number + afterNumber);
    assert afterOwner == "/" + (repo + afterRepo);
    assert p == "/" + (owner + afterOwner);
  }

  /**
   * The path test on `/owner/repo/pull/number` followed by anything that
   * starts a new segment: it matches exactly when the number is all digits
   * and what follows is nothing or a single "/".
   */
  lemma MatchPullPathOf(owner: string, repo: string, number: string, suffix: string)
    requires IsSegment(owner) && IsSegment(repo) && NoneOf(number, {'/'})
    requires suffix == [] || suffix[0] == '/'
    ensures MatchPullPath(PullPath(owner, repo, number) + suffix)
         == if IsNumber(number) && (suffix == [] || suffix == "/") then Some((owner, repo, number)) else None
  {
    var p := PullPath(owner, repo, number) + suffix;
    var afterRepo := "/pull/" + (number + suffix);
    var afterOwner := "/" + (repo + afterRepo);
    PullPathCut(owner, repo, number, suffix);
    SplitAtUnique(owner, afterOwner, {'/'});
    SplitAtUnique(repo, afterRepo, {'/'});
    SplitAtUnique(number, suffix, {'/'});
  }

  /** Where `MatchPullPath` cuts `/owner/repo/pull/number` followed by `suffix`. */
  lemma PullPathCut(owner: string, repo: string, number: string, suffix: string)
    ensures var afterRepo := "/pull/" + (number + suffix);
      var afterOwner := "/" + (repo + afterRepo);
      var p := PullPath(owner, repo, number) + suffix;
      && |p| > 0 && p[0] == '/' && p[1..] == owner + afterOwner
      && afterOwner[1..] == repo + afterRepo
      && "/pull/" <= afterRepo && afterRepo[6..] == number + suffix
  {
    var afterRepo := "/pull/" + (number + suffix);
    var afterOwner := "/" + (repo + afterRepo);
    assert PullPath(owner, repo, number) + suffix == "/" + (owner + afterOwner);
  }

  /** `parseGitHubPRUrl(url, hosts)`; `None` stands for its `null`. */
  function ParseGitHubPRUrl(url: string, hosts: seq<string>): Option<PullRequest>
  {
    match ParseUrl(url)
    case None => None
    case Some(u) => PullRequestAt(u, hosts)
  }

  /** What `parseGitHubPRUrl` makes of a URL that parsed to `u`. */
  function PullRequestAt(u: Url, hosts: seq<string>): (r: Option<PullRequest>)
    ensures u.hostname !in hosts ==> r.None?
    ensures r.Some? ==>
      var pr := r.value;
      && u.hostname in hosts
      && pr.host == Origin(u)
      && IsSegment(pr.owner) && IsSegment(pr.repo) && IsNumber(pr.number)
      && (u.pathname == PullPath(pr.owner, pr.repo, pr.number)
          || u.pathname == PullPath(pr.owner, pr.repo, pr.number) + "/")
      && pr.filesUrl == pr.host + PullPath(pr.owner, pr.repo, pr.number) + "/files"
  {
    if u.hostname !in hosts then None
    else
      match MatchPullPath(u.pathname)
      case None => None
      case Some((owner, repo, number)) =>
        var origin := Origin(u);
        var filesUrl := origin + "/" + owner + "/" + repo + "/pull/" + number + "/files";
        FilesUrlShape(origin, owner, repo, number);
        Some(PullRequest(origin, owner, repo, number, filesUrl))
  }

  /** The template of the "Files changed" URL is the origin, the path and "/files". */
  lemma FilesUrlShape(origin: string, owner: string, repo: string, number: string)
    ensures origin + "/" + owner + "/" + repo + "/pull/" + number + "/files"
         == origin + PullPath(owner, repo, number) + "/files"
  {
    assert origin + "/" + owner + "/" + repo + "/pull/" + number
        == origin + ("/" + owner + "/" + repo + "/pull/" + number);
  }

  /**
   * Every `/owner/repo/pull/number` page (with or without one trailing "/",
   * with any query or fragment) on an allowed host is recognised.
   */
  lemma PullRequestRecognized(u: Url, hosts: seq<string>, owner: string, repo: string, number: string, slash: bool)
    requires WellFormed(u) && u.hostname in hosts
    requires IsSegment(owner) && IsSegment(repo) && IsNumber(number)
    requires u.pathname == PullPath(owner, repo, number) + (if slash then "/" else "")
    ensures ParseGitHubPRUrl(Href(u), hosts)
         == Some(PullRequest(Origin(u), owner, repo, number,
                             Origin(u) + PullPath(owner, repo, number) + "/files"))
  {
    ParseHref(u);
    PullRequestAtRecognized(u, hosts, owner, repo, number, slash);
  }

  lemma PullRequestAtRecognized(u: Url, hosts: seq<string>, owner: string, repo: string, number: string, slash: bool)
    requires u.hostname in hosts
    requires IsSegment(owner) && IsSegment(repo) && IsNumber(number)
    requires u.pathname == PullPath(owner, repo, number) + (if slash then "/" else "")
    ensures PullRequestAt(u, hosts)
         == Some(PullRequest(Origin(u), owner, repo, number,
                             Origin(u) + PullPath(owner, repo, number) + "/files"))
  {
    MatchPullPathOf(owner, repo, number, if slash then "/" else "");
  }

  /** A deeper path (`/pull/N/files`, `/pull/N/commits`, ...) is never recognised. */
  lemma SubPathNotPullRequest(u: Url, hosts: seq<string>, owner: string, repo: string, number: string, sub: string)
    requires WellFormed(u)
    requires IsSegment(owner) && IsSegment(repo) && NoneOf(number, {'/'}) && sub != []
    requires u.pathname == PullPath(owner, repo, number) + "/" + sub
    ensures ParseGitHubPRUrl(Href(u), hosts) == None
  {
    ParseHref(u);
    assert u.pathname == PullPath(owner, repo, number) + ("/" + sub);
    MatchPullPathOf(owner, repo, number, "/" + sub);
    assert PullRequestAt(u, hosts) == None;
  }

  /** A string that starts with "null/" has no scheme, so it does not parse. */
  lemma NullOriginDoesNotParse(rest: string)
    ensures ParseUrl("null/" + rest) == None
  {
    assert NoneOf("null/", {':'});
    SplitAtAfterPrefix("null/", rest, {':'});
    var scheme := SplitAt("null/" + rest, {':'}).0;
    assert scheme[4] == '/' && !IsSchemeChar(scheme[4]);
  }

  /**
   * The "Files changed" URL derived from a recognised page is not itself
   * recognised, on any host list: the tab the split opens cannot trigger
   * another split.
   */
  lemma FilesUrlNotPullRequest(url: string, hosts: seq<string>, hosts': seq<string>)
    requires ParseGitHubPRUrl(url, hosts).Some?
    ensures ParseGitHubPRUrl(ParseGitHubPRUrl(url, hosts).value.filesUrl, hosts') == None
  {
    FilesUrlOfNotPullRequest(ParseUrl(url).value, hosts, hosts');
  }

  lemma FilesUrlOfNotPullRequest(u: Url, hosts: seq<string>, hosts': seq<string>)
    requires WellFormed(u) && PullRequestAt(u, hosts).Some?
    ensures ParseGitHubPRUrl(PullRequestAt(u, hosts).value.filesUrl, hosts') == None
  {
    var pr := PullRequestAt(u, hosts).value;
    var path := PullPath(pr.owner, pr.repo, pr.number);
    if IsSpecialScheme(u.scheme) {
      assert NoneOf(path, {'?', '#'}) by {
        assert forall i :: 0 <= i < |path| ==> path[i] == u.pathname[i];
      }
      SpecialFilesUrlNotPullRequest(u, pr.owner, pr.repo, pr.number, hosts');
    } else {
      NullFilesUrlNotPullRequest(pr.owner, pr.repo, pr.number, hosts');
    }
  }

  lemma NullFilesUrlNotPullRequest(owner: string, repo: string, number: string, hosts: seq<string>)
    ensures ParseGitHubPRUrl("null" + PullPath(owner, repo, number) + "/files", hosts) == None
  {
    var x := owner + "/" + repo + "/pull/" + number;
    assert PullPath(owner, repo, number) == "/" + x;
    NullSlash(x, "/files");
    NullOriginDoesNotParse(x + "/files");
  }

  lemma NullSlash(x: string, y: string)
    ensures "null" + ("/" + x) + y == "null/" + (x + y)
  {
    assert "null" + "/" == "null/";
  }

  lemma SpecialFilesUrlNotPullRequest(u: Url, owner: string, repo: string, number: string, hosts: seq<string>)
    requires WellFormed(u) && IsSpecialScheme(u.scheme)
    requires IsSegment(owner) && IsSegment(repo) && IsNumber(number)
    requires NoneOf(PullPath(owner, repo, number), {'?', '#'})
    ensures ParseGitHubPRUrl(Origin(u) + PullPath(owner, repo, number) + "/files", hosts) == None
  {
    var path := PullPath(owner, repo, number);
    var files := Url(u.scheme, u.hostname, u.port, path + "/" + "files", None, None);
    assert WellFormed(files) by {
      assert files.pathname == "/" + (owner + "/" + repo + "/pull/" + number + "/files");
      assert NoneOf(files.pathname, {'?', '#'}) by {
        assert forall i :: 0 <= i < |path| ==> files.pathname[i] == path[i];
      }
    }
    assert Href(files) == Origin(u) + path + "/files";
    SubPathNotPullRequest(files, hosts, owner, repo, number, "files");
  }
}
