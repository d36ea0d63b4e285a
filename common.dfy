/** URL helpers of `src/common.ts`. The browser location and `qs.stringify`
    are parameters. */
module Common {
  import opened Js
  import opened Text
  import opened Dict

  /** The parts of `window.location` the helpers read. */
  datatype Location = Location(pathname: string, search: string)

  /** `buildUrl({ origin, path, query, hash })`: origin (default `''`),
      path, then `?` and the stringified query when a query object is given,
      then `#` and the hash when it is non-empty. */
  function BuildUrl(origin: Option<string>, path: string, query: Option<Dict<Value>>, hash: Option<string>,
                    stringify: Dict<Value> -> string): (url: string)
    ensures origin.None? ==> StartsWith(url, path)
    ensures origin.Some? ==> StartsWith(url, origin.value + path)
    ensures query.None? && (hash.None? || hash.value == "") ==> url == OrEmpty(origin) + path
    ensures query.Some? ==> url[|OrEmpty(origin) + path|..] == "?" + stringify(query.value) + HashPart(hash)
    ensures query.None? ==> url[|OrEmpty(origin) + path|..] == HashPart(hash)
  {
    var queryPart := match query
      case None => ""
      case Some(q) => "?" + stringify(q);
    OrEmpty(origin) + path + queryPart + HashPart(hash)
  }

  function OrEmpty(s: Option<string>): string
  {
    if s.Some? then s.value else ""
  }

  /** `hash ? '#' + hash : ''` */
  function HashPart(hash: Option<string>): (part: string)
    ensures part == "" <==> hash.None? || hash.value == ""
  {
    if hash.Some? && hash.value != "" then "#" + hash.value else ""
  }

  /** The first index of `c` in `s`, or `|s|` when it does not occur. */
  function FindChar(s: string, c: char): (i: nat)
    ensures i <= |s|
    ensures i < |s| ==> s[i] == c
  {
    if s == [] then 0 else if s[0] == c then 0 else 1 + FindChar(s[1..], c)
  }

  /** No earlier character is `c`: the index found is the first. */
  lemma {:induction false} FindCharFirst(s: string, c: char)
    ensures forall j :: 0 <= j < FindChar(s, c) ==> s[j] != c
  {
    if s != [] && s[0] != c {
      FindCharFirst(s[1..], c);
      assert forall j :: 1 <= j < |s| ==> s[j] == s[1..][j - 1];
    }
  }

  lemma {:induction false} FindCharAppend(a: string, b: string, c: char)
    requires c !in a
    ensures FindChar(a + b, c) == |a| + FindChar(b, c)
  {
    if a != [] {
      assert (a + b)[0] == a[0] && (a + b)[1..] == a[1..] + b;
      FindCharAppend(a[1..], b, c);
    } else {
      assert a + b == b;
    }
  }

  /** Where the first `?` and the first `#` of a built URL are. */
  lemma {:induction false} BuiltUrlLayout(base: string, queryPart: string, hashPart: string)
    requires '?' !in base && '#' !in base && '#' !in queryPart
    requires queryPart == "" || queryPart[0] == '?'
    requires hashPart == "" || hashPart[0] == '#'
    ensures FindChar(base + queryPart + hashPart, '#') == |base| + |queryPart|
    ensures queryPart != "" ==> FindChar(base + queryPart + hashPart, '?') == |base|
    ensures queryPart == "" ==> FindChar(base + queryPart + hashPart, '?') >= |base| + |queryPart|
  {
    assert base + queryPart + hashPart == base + (queryPart + hashPart);
    FindCharAppend(base, queryPart + hashPart, '#');
    FindCharAppend(base, queryPart + hashPart, '?');
    FindCharAppend(queryPart, hashPart, '#');
    if queryPart == "" {
      assert queryPart + hashPart == hashPart;
    }
  }

  /** The parts of a built URL, read back through its first `?` and `#`. */
  lemma {:induction false} UrlPartsReadBack(base: string, queryPart: string, hashPart: string)
    requires '?' !in base && '#' !in base && '#' !in queryPart
    requires queryPart == "" || queryPart[0] == '?'
    requires hashPart == "" || hashPart[0] == '#'
    ensures var url := base + queryPart + hashPart;
      var h := FindChar(url, '#');
      && url[..|base|] == base
      && (queryPart != "" <==> FindChar(url, '?') == |base| < h)
      && (queryPart != "" ==> url[|base| + 1..h] == queryPart[1..])
      && (h < |url| <==> hashPart != "")
      && (h < |url| ==> url[h + 1..] == hashPart[1..])
  {
    var url := base + queryPart + hashPart;
    BuiltUrlLayout(base, queryPart, hashPart);
    var h := FindChar(url, '#');
    assert url[|base|..h] == queryPart && url[h..] == hashPart;
    if queryPart != "" {
      assert url[|base| + 1..h] == url[|base|..h][1..];
    }
    if hashPart != "" {
      assert url[h + 1..] == url[h..][1..];
    }
  }

  /** A built URL parses back into its parts: when neither origin nor path
      contains `?` or `#` and the query string contains no `#`, the text up to
      the first `?` or `#` is origin and path, a `?` comes first iff a query
      was given, the query string runs up to the first `#`, and everything
      after the first `#` is the hash. */
  lemma {:induction false} BuildUrlParsesBack(origin: Option<string>, path: string, query: Option<Dict<Value>>,
                                              hash: Option<string>, stringify: Dict<Value> -> string)
    requires '?' !in OrEmpty(origin) + path && '#' !in OrEmpty(origin) + path
    requires query.Some? ==> '#' !in stringify(query.value)
    ensures var url := BuildUrl(origin, path, query, hash, stringify);
      var base := OrEmpty(origin) + path;
      var h := FindChar(url, '#');
      && url[..|base|] == base
      && (query.Some? <==> FindChar(url, '?') == |base| < h)
      && (query.Some? ==> url[|base| + 1..h] == stringify(query.value))
      && (h < |url| <==> hash.Some? && hash.value != "")
      && (h < |url| ==> url[h + 1..] == hash.value)
  {
    var base := OrEmpty(origin) + path;
    var queryPart := if query.Some? then "?" + stringify(query.value) else "";
    var hashPart := HashPart(hash);
    assert BuildUrl(origin, path, query, hash, stringify) == base + queryPart + hashPart;
    UrlPartsReadBack(base, queryPart, hashPart);
    assert query.Some? ==> queryPart[1..] == stringify(query.value);
    assert hashPart != "" ==> hashPart[1..] == hash.value;
  }

  /** `getPathAndQuery()`: the path followed by the query string. */
  function GetPathAndQuery(location: Location): (r: string)
    ensures StartsWith(r, location.pathname) && r[|location.pathname|..] == location.search
  {
    location.pathname + location.search
  }

  /** The URL of a page that redirects back: `path`, with a `redirect` query
      naming the current path and query unless that is `currentUrl`. */
  function RedirectingUrl(path: string, currentUrl: Option<string>, location: Location,
                          stringify: Dict<Value> -> string): string
  {
    var redirectUrl := GetPathAndQuery(location);
    BuildUrl(None, path, if currentUrl != Some(redirectUrl) then Some([("redirect", Str(redirectUrl))]) else None,
             None, stringify)
  }

  /** `getLoginUrl(currentUrl)`: `/login`, with a `redirect` query holding the
      current path and query iff that differs from `currentUrl`. */
  function GetLoginUrl(currentUrl: Option<string>, location: Location, stringify: Dict<Value> -> string): (url: string)
    ensures currentUrl == Some(GetPathAndQuery(location)) ==> url == "/login"
    ensures currentUrl != Some(GetPathAndQuery(location)) ==>
      url == "/login?" + stringify([("redirect", Str(GetPathAndQuery(location)))])
  {
    RedirectingUrl("/login", currentUrl, location, stringify)
  }

  /** `getLogoutUrl(currentUrl)`: the same rule with the path `/logout`. */
  function GetLogoutUrl(currentUrl: Option<string>, location: Location, stringify: Dict<Value> -> string): (url: string)
    ensures currentUrl == Some(GetPathAndQuery(location)) ==> url == "/logout"
    ensures currentUrl != Some(GetPathAndQuery(location)) ==>
      url == "/logout?" + stringify([("redirect", Str(GetPathAndQuery(location)))])
  {
    RedirectingUrl("/logout", currentUrl, location, stringify)
  }

  /** The login and logout URLs differ only in their path. */
  lemma LoginLogoutDifferInPathOnly(currentUrl: Option<string>, location: Location, stringify: Dict<Value> -> string)
    ensures GetLogoutUrl(currentUrl, location, stringify)
      == "/logout" + GetLoginUrl(currentUrl, location, stringify)[|"/login"|..]
  {
  }
}
