/** A stock optional-value datatype, used for "no match" and "did not parse". */
module Options {
  datatype Option<+T> = None | Some(value: T)
}

/**
 * URL utilities of the background agent: the fail-open normaliser and the
 * internal-URL classifier.
 *
 * The browser's URL parser (the WHATWG URL Standard parser behind `new URL`)
 * is not part of this model. In its place `ParseUrl` accepts the hierarchical
 * shape `scheme://host[:port][path][?query][#fragment]` and rejects every other
 * string, which the callers then treat exactly as they treat a thrown parse
 * error.
 */
module Urls {
  import opened Options

  // ----- Character classes and splitting -----

  /** No character of `s` is one of `stops`. */
  predicate NoneOf(s: string, stops: set<char>)
  {
    forall i :: 0 <= i < |s| ==> s[i] !in stops
  }

  predicate IsDigit(c: char)
  {
    '0' <= c <= '9'
  }

  /** The `\d+`-style check on a whole string (ASCII digits only), without the `+`. */
  predicate AllDigits(s: string)
  {
    forall i :: 0 <= i < |s| ==> IsDigit(s[i])
  }

  predicate IsAsciiLetter(c: char)
  {
    'a' <= c <= 'z' || 'A' <= c <= 'Z'
  }

  predicate IsSchemeChar(c: char)
  {
    IsAsciiLetter(c) || IsDigit(c) || c == '+' || c == '-' || c == '.'
  }

  predicate ValidScheme(s: string)
  {
    |s| > 0 && IsAsciiLetter(s[0]) && forall i :: 0 <= i < |s| ==> IsSchemeChar(s[i])
  }

  /**
   * Splits `s` before its first character from `stops`: the first part holds
   * none of them and the second part is empty or starts with one.
   */
  function SplitAt(s: string, stops: set<char>): (r: (string, string))
    ensures r.0 + r.1 == s
    ensures NoneOf(r.0, stops)
    ensures r.1 == [] || r.1[0] in stops
  {
    if s == [] then ([], [])
    else if s[0] in stops then ([], s)
    else
      var rest := SplitAt(s[1..], stops);
      var first := [s[0]] + rest.0;
      assert first + rest.1 == [s[0]] + (rest.0 + rest.1);
      assert forall i :: 1 <= i < |first| ==> first[i] == rest.0[i - 1];
      (first, rest.1)
  }

  /** The three properties of `SplitAt` determine its result. */
  lemma {:induction false} SplitAtUnique(a: string, b: string, stops: set<char>)
    requires NoneOf(a, stops)
    requires b == [] || b[0] in stops
    ensures SplitAt(a + b, stops) == (a, b)
  {
    if a == [] {
      assert a + b == b;
    } else {
      assert (a + b)[0] == a[0];
      assert (a + b)[1..] == a[1..] + b;
      SplitAtUnique(a[1..], b, stops);
      assert [a[0]] + a[1..] == a;
    }
  }

  /** Splitting after a stop-free prefix splits the rest and keeps the prefix in front. */
  lemma {:induction false} SplitAtAfterPrefix(a: string, b: string, stops: set<char>)
    requires NoneOf(a, stops)
    ensures SplitAt(a + b, stops) == (a + SplitAt(b, stops).0, SplitAt(b, stops).1)
  {
    if a == [] {
      assert a + b == b && a + SplitAt(b, stops).0 == SplitAt(b, stops).0;
    } else {
      assert (a + b)[0] == a[0];
      assert (a + b)[1..] == a[1..] + b;
      SplitAtAfterPrefix(a[1..], b, stops);
      assert [a[0]] + (a[1..] + SplitAt(b, stops).0) == a + SplitAt(b, stops).0;
    }
  }

  // ----- The parsed form of a URL -----

  /** The components of a parsed URL that the agent reads or serialises. */
  datatype Url = Url(
    scheme: string,
    hostname: string,
    port: string,
    pathname: string,
    query: Option<string>,
    fragment: Option<string>)

  /** The components `ParseUrl` can produce. */
  predicate WellFormed(u: Url)
  {
    && ValidScheme(u.scheme)
    && u.hostname != []
    && NoneOf(u.hostname, {':', '/', '?', '#'})
    && AllDigits(u.port)
    && |u.pathname| > 0 && u.pathname[0] == '/'
    && NoneOf(u.pathname, {'?', '#'})
    && (u.query.Some? ==> NoneOf(u.query.value, {'#'}))
  }

  /** Schemes whose origin is a tuple origin; every other scheme has the opaque origin "null". */
  predicate IsSpecialScheme(scheme: string)
  {
    scheme in {"http", "https", "ws", "wss", "ftp"}
  }

  function Host(u: Url): string
  {
    u.hostname + (if u.port == [] then [] else ":" + u.port)
  }

  /** `URL.origin`. */
  function Origin(u: Url): string
  {
    if IsSpecialScheme(u.scheme) then u.scheme + "://" + Host(u) else "null"
  }

  function Search(u: Url): string
  {
    match u.query
    case None => []
    case Some(q) => "?" + q
  }

  function Hash(u: Url): string
  {
    match u.fragment
    case None => []
    case Some(f) => "#" + f
  }

  /** `URL.toString()`, the serialised form. */
  function Href(u: Url): string
  {
    u.scheme + "://" + Host(u) + u.pathname + Search(u) + Hash(u)
  }

  /**
   * `new URL(s)`, approximated: `None` for every string outside the shape
   * `scheme://host[:port][path][?query][#fragment]`. Within that shape it is
   * more lenient than the browser (a host with a space or a port above 65535
   * parses), and an empty path becomes "/" for every scheme, where the browser
   * does so only for the special schemes.
   */
  function ParseUrl(s: string): (r: Option<Url>)
    ensures r.Some? ==> WellFormed(r.value)
  {
    var (scheme, afterScheme) := SplitAt(s, {':'});
    if !ValidScheme(scheme) || !("://" <= afterScheme) then None
    else
      var (authority, afterAuthority) := SplitAt(afterScheme[3..], {'/', '?', '#'});
      var (hostname, portPart) := SplitAt(authority, {':'});
      var port := if portPart == [] then [] else portPart[1..];
      if hostname == [] || !AllDigits(port) then None
      else
        assert forall i :: 0 <= i < |hostname| ==> hostname[i] == authority[i];
        var (pathname, query, fragment) := ParsePathOnward(afterAuthority);
        Some(Url(scheme, hostname, port, pathname, query, fragment))
  }

  /** The path, query and fragment that follow the authority. */
  function ParsePathOnward(s: string): (r: (string, Option<string>, Option<string>))
    requires s == [] || s[0] in {'/', '?', '#'}
    ensures |r.0| > 0 && r.0[0] == '/' && NoneOf(r.0, {'?', '#'})
    ensures r.1.Some? ==> NoneOf(r.1.value, {'#'})
  {
    var (path, afterPath) := SplitAt(s, {'?', '#'});
    assert path != [] ==> path[0] == s[0] == '/';
    var (query, afterQuery) := ParseQuery(afterPath);
    (if path == [] then "/" else path, query, ParseFragment(afterQuery))
  }

  function ParseQuery(s: string): (r: (Option<string>, string))
    requires s == [] || s[0] in {'?', '#'}
    ensures r.0.Some? ==> NoneOf(r.0.value, {'#'})
    ensures r.1 == [] || r.1[0] == '#'
  {
    if s != [] && s[0] == '?' then
      var (q, rest) := SplitAt(s[1..], {'#'});
      (Some(q), rest)
    else (None, s)
  }

  function ParseFragment(s: string): Option<string>
  {
    if s == [] then None else Some(s[1..])
  }

  /** Parsing the serialised form of a well-formed URL gives back that URL. */
  lemma ParseHref(u: Url)
    requires WellFormed(u)
    ensures ParseUrl(Href(u)) == Some(u)
  {
    var rest := u.pathname + Search(u) + Hash(u);
    var host := Host(u);
    var portPart := if u.port == [] then [] else ":" + u.port;
    assert Href(u) == u.scheme + ("://" + (host + rest));
    SplitAtUnique(u.scheme, "://" + (host + rest), {':'});
    assert ("://" + (host + rest))[3..] == host + rest;
    assert NoneOf(host, {'/', '?', '#'}) by {
      forall i | 0 <= i < |host| ensures host[i] !in {'/', '?', '#'} {
        if i >= |u.hostname| && u.port != [] {
          assert host[i] == portPart[i - |u.hostname|];
          assert i == |u.hostname| || IsDigit(u.port[i - |u.hostname| - 1]);
        }
      }
    }
    SplitAtUnique(host, rest, {'/', '?', '#'});
    SplitAtUnique(u.hostname, portPart, {':'});
    ParsePathOnwardOfHref(u);
  }

  lemma ParsePathOnwardOfHref(u: Url)
    requires WellFormed(u)
    ensures ParsePathOnward(u.pathname + Search(u) + Hash(u)) == (u.pathname, u.query, u.fragment)
  {
    var tail := Search(u) + Hash(u);
    assert u.pathname + Search(u) + Hash(u) == u.pathname + tail;
    SplitAtUnique(u.pathname, tail, {'?', '#'});
    match u.query
    case Some(q) =>
      assert tail == "?" + (q + Hash(u));
      assert tail[1..] == q + Hash(u);
      SplitAtUnique(q, Hash(u), {'#'});
    case None =>
      assert tail == Hash(u);
  }

  // ----- normalizeUrl -----

  /** `replace(/\/$/, "")`: removes one "/" at the very end, if there is one. */
  function DropTrailingSlash(s: string): string
  {
    if |s| > 0 && s[|s| - 1] == '/' then s[..|s| - 1] else s
  }

  lemma HrefHasNoHash(u: Url)
    requires WellFormed(u) && u.fragment.None?
    ensures NoneOf(Href(u), {'#'})
  {
    var h := Href(u);
    var host := Host(u);
    assert h == u.scheme + "://" + host + u.pathname + Search(u);
    forall i | 0 <= i < |host| ensures host[i] != '#' {
      if i >= |u.hostname| && u.port != [] {
        assert i == |u.hostname| || IsDigit(u.port[i - |u.hostname| - 1]);
      }
    }
    assert forall i :: 0 <= i < |u.scheme| ==> IsSchemeChar(u.scheme[i]);
  }

  /**
   * `normalizeUrl`: a string that does not parse is returned unchanged;
   * otherwise the fragment is cleared and one trailing "/" of the serialised
   * form is dropped.
   */
  function NormalizeUrl(url: string): string
  {
    match ParseUrl(url)
    case None => url
    case Some(u) => DropTrailingSlash(Href(u.(fragment := None)))
  }

  /**
   * An unparsable URL is its own normal form; otherwise the normal form is the
   * serialised URL without its fragment, with at most one trailing "/" dropped,
   * and holds no "#".
   */
  lemma NormalizeUrlForm(url: string)
    ensures ParseUrl(url).None? ==> NormalizeUrl(url) == url
    ensures ParseUrl(url).Some? ==>
      var bare := Href(ParseUrl(url).value.(fragment := None));
      var r := NormalizeUrl(url);
      && '#' !in r
      && (r == bare || r + "/" == bare)
  {
    if ParseUrl(url).Some? {
      var bare := ParseUrl(url).value.(fragment := None);
      HrefHasNoHash(bare);
      var r := DropTrailingSlash(Href(bare));
      assert r == Href(bare)[..|r|];
    }
  }

  /** The normal form of a well-formed URL, read off its components. */
  lemma NormalizeHref(u: Url)
    requires WellFormed(u)
    ensures NormalizeUrl(Href(u)) == DropTrailingSlash(Href(u.(fragment := None)))
  {
    ParseHref(u);
  }

  /** URLs that differ only in their fragment normalise to the same string. */
  lemma NormalizeIgnoresFragment(u: Url, f1: Option<string>, f2: Option<string>)
    requires WellFormed(u)
    ensures NormalizeUrl(Href(u.(fragment := f1))) == NormalizeUrl(Href(u.(fragment := f2)))
  {
    NormalizeHref(u.(fragment := f1));
    NormalizeHref(u.(fragment := f2));
    assert u.(fragment := f1).(fragment := None) == u.(fragment := f2).(fragment := None);
  }

  /**
   * A path with one trailing "/" normalises like the path without it, when no
   * query follows the path (the slash removed is the last character of the
   * whole serialised URL).
   */
  lemma NormalizeIgnoresTrailingSlash(u: Url, path: string)
    requires WellFormed(u) && u.query.None?
    requires u.pathname == path + "/"
    requires |path| > 0 && path[|path| - 1] != '/'
    ensures NormalizeUrl(Href(u)) == NormalizeUrl(Href(u.(pathname := path)))
  {
    var v := u.(pathname := path);
    assert path[0] == u.pathname[0];
    assert forall i :: 0 <= i < |path| ==> path[i] == u.pathname[i];
    assert WellFormed(v);
    NormalizeHref(u);
    NormalizeHref(v);
    BareHrefWithSlash(u, path);
  }

  /**
   * With a query, the trailing "/" of the path is not at the end of the
   * serialised URL and survives: `https://x.com/a/?q` and `https://x.com/a?q`
   * normalise differently.
   */
  lemma TrailingSlashBeforeQueryKept(u: Url, path: string)
    requires WellFormed(u) && u.query.Some?
    requires u.pathname == path + "/" && |path| > 0
    ensures NormalizeUrl(Href(u)) != NormalizeUrl(Href(u.(pathname := path)))
  {
    var v := u.(pathname := path);
    assert WellFormed(v) by {
      assert path[0] == u.pathname[0];
      assert forall i :: 0 <= i < |path| ==> path[i] == u.pathname[i];
    }
    NormalizeHref(u);
    NormalizeHref(v);
    HrefWithQuery(u.(fragment := None), path);
    DropTrailingSlashKeepsGap(Href(u.(fragment := None)), Href(v.(fragment := None)));
  }

  /** Without a fragment, the two serialisations differ by the "/" before the query only. */
  lemma HrefWithQuery(u: Url, path: string)
    requires u.query.Some? && u.fragment.None? && u.pathname == path + "/"
    ensures var hu := Href(u);
      var hv := Href(u.(pathname := path));
      |hu| == |hv| + 1 && hu[|hu| - 1] == hv[|hv| - 1]
  {
    var front := u.scheme + "://" + Host(u);
    var tail := "?" + u.query.value;
    assert Href(u) == front + path + "/" + tail;
    assert Href(u.(pathname := path)) == front + path + tail;
  }

  /** Strings one character apart in length, with the same last character, stay apart. */
  lemma DropTrailingSlashKeepsGap(a: string, b: string)
    requires |a| == |b| + 1 && |b| > 0 && a[|a| - 1] == b[|b| - 1]
    ensures DropTrailingSlash(a) != DropTrailingSlash(b)
  {
    assert |DropTrailingSlash(a)| == |DropTrailingSlash(b)| + 1;
  }

  lemma BareHrefWithSlash(u: Url, path: string)
    requires u.query.None? && u.pathname == path + "/"
    requires |path| > 0 && path[|path| - 1] != '/'
    ensures DropTrailingSlash(Href(u.(fragment := None)))
         == DropTrailingSlash(Href(u.(pathname := path, fragment := None)))
  {
    var w := u.(fragment := None);
    var v := u.(pathname := path, fragment := None);
    var front := u.scheme + "://" + Host(u);
    assert Search(w) == [] && Hash(w) == [] && Search(v) == [] && Hash(v) == [];
    assert Href(w) == front + path + "/";
    assert Href(v) == front + path;
  }

  /** Only one slash is dropped: "…/x//" keeps one of its two trailing slashes. */
  lemma NormalizeDropsOneSlashOnly(u: Url)
    requires WellFormed(u) && u.query.None?
    requires |u.pathname| >= 2 && u.pathname[|u.pathname| - 2..] == "//"
    ensures NormalizeUrl(Href(u)) == Href(u.(fragment := None))[..|Href(u.(fragment := None))| - 1]
    ensures NormalizeUrl(Href(u))[|NormalizeUrl(Href(u))| - 1] == '/'
  {
    NormalizeHref(u);
    var h := Href(u.(fragment := None));
    assert h == u.scheme + "://" + Host(u) + u.pathname;
    assert h[|h| - 1] == u.pathname[|u.pathname| - 1];
    assert h[|h| - 2] == u.pathname[|u.pathname| - 2];
  }

  // ----- isInternalUrl -----

  /** `isInternalUrl`: empty (or absent) URLs and the browser's own pages. */
  function IsInternalUrl(url: string): (r: bool)
    ensures r <==> url == [] || "chrome://" <= url || "chrome-extension://" <= url || "about:" <= url
  {
    || url == []
    || url == "chrome://newtab/"
    || "chrome://" <= url
    || "chrome-extension://" <= url
    || "about:" <= url
  }

  /** Two colon-free words followed by ':' are in a prefix relation only when equal. */
  lemma WordBeforeColon(p: string, x: string, a: string, y: string)
    requires ':' !in p && ':' !in a
    requires p + ":" + x <= a + ":" + y
    ensures p == a
  {
    var s := p + ":" + x;
    var t := a + ":" + y;
    var more := t[|s|..];
    assert t == p + (":" + x + more);
    assert t == a + (":" + y);
    SplitAtUnique(p, ":" + x + more, {':'});
    SplitAtUnique(a, ":" + y, {':'});
  }

  /** A colon-free word followed by ':' begins a well-formed URL only when it is the scheme. */
  lemma SchemePrefix(u: Url, p: string)
    requires WellFormed(u) && ':' !in p
    ensures p + ":" <= Href(u) <==> p == u.scheme
  {
    var y := "//" + Host(u) + u.pathname + Search(u) + Hash(u);
    assert Href(u) == u.scheme + ":" + y;
    assert ':' !in u.scheme by {
      assert forall i :: 0 <= i < |u.scheme| ==> IsSchemeChar(u.scheme[i]);
    }
    if p + ":" <= Href(u) {
      assert p + ":" + "" == p + ":";
      WordBeforeColon(p, "", u.scheme, y);
    }
    if p == u.scheme {
      assert Href(u) == (p + ":") + y;
    }
  }

  /** The same with the "//" that follows the scheme of a hierarchical URL. */
  lemma SchemeSlashesPrefix(u: Url, p: string)
    requires WellFormed(u) && ':' !in p
    ensures p + "://" <= Href(u) <==> p == u.scheme
  {
    var h := Href(u);
    SchemePrefix(u, p);
    if p + "://" <= h {
      assert (p + "://")[..|p| + 1] == p + ":";
      assert h[..|p| + 1] == p + ":";
    }
    if p == u.scheme {
      assert h == p + "://" + (Host(u) + u.pathname + Search(u) + Hash(u));
    }
  }

  /**
   * A parseable URL is internal exactly when its scheme is "chrome",
   * "chrome-extension" or "about"; so no http(s) page is ever internal.
   */
  lemma InternalIffBrowserScheme(u: Url)
    requires WellFormed(u)
    ensures IsInternalUrl(Href(u)) <==> u.scheme in {"chrome", "chrome-extension", "about"}
  {
    assert "chrome://" == "chrome" + "://";
    assert "chrome-extension://" == "chrome-extension" + "://";
    assert "about:" == "about" + ":";
    SchemeSlashesPrefix(u, "chrome");
    SchemeSlashesPrefix(u, "chrome-extension");
    SchemePrefix(u, "about");
  }
}
