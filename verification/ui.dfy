/**
 * The `favus ui` and `favus stop-ui` commands: how the upstream endpoint and
 * API key are chosen, the argument list of the background agent process,
 * the UI address derived from the WebSocket endpoint, and the outcomes of
 * stop-ui and of opening a browser. Environment variables, the agent's
 * health probe, process start-up and the browser are inputs.
 */
module Ui {
  import opened Wrappers
  import opened Text
  import WsAgent

  const DefaultEndpoint: string := "ws://127.0.0.1:8765/ws"

  /** The `favus ui` flags, as cobra leaves them after parsing. */
  datatype UiFlags = UiFlags(addr: string, endpoint: string, apiKey: string, open: bool, openURL: string, foreground: bool)

  /** The flag values before any flag is given. */
  const DefaultFlags: UiFlags := UiFlags(WsAgent.DefaultAddress, "", "", false, "", false)

  // ---- endpoint and API key ----

  /** The endpoint flag if set, else FAVUS_WS_ENDPOINT if set, else the built-in local endpoint. */
  function Endpoint(flag: string, env: string): (r: string)
    ensures r != ""
    ensures flag != "" ==> r == flag
    ensures flag == "" && env != "" ==> r == env
    ensures flag == "" && env == "" ==> r == DefaultEndpoint
  {
    if flag != "" then flag else if env != "" then env else DefaultEndpoint
  }

  /** The API key flag if set, else FAVUS_WS_API_KEY (possibly empty). */
  function APIKey(flag: string, env: string): (r: string)
    ensures flag != "" ==> r == flag
    ensures flag == "" ==> r == env
  {
    if flag != "" then flag else env
  }

  // ---- background argument list and its parser ----

  /**
   * The arguments of the background agent: `ui --addr A --endpoint E
   * --foreground`, then `--api-key K`, `--open` and `--open-url U` in that
   * order, each only when set.
   */
  method BackgroundArgs(addr: string, endpoint: string, apiKey: string, open: bool, openURL: string) returns (args: seq<string>)
    ensures args == ["ui", "--addr", addr, "--endpoint", endpoint, "--foreground"]
                    + (if apiKey != "" then ["--api-key", apiKey] else [])
                    + (if open then ["--open"] else [])
                    + (if openURL != "" then ["--open-url", openURL] else [])
    ensures ParseCommand(args) == Some(UiFlags(addr, endpoint, apiKey, open, openURL, true))
  {
    args := ["ui", "--addr", addr, "--endpoint", endpoint, "--foreground"];
    if apiKey != "" {
      args := args + ["--api-key", apiKey];
    }
    if open {
      args := args + ["--open"];
    }
    if openURL != "" {
      args := args + ["--open-url", openURL];
    }
    BackgroundArgsParse(addr, endpoint, apiKey, open, openURL);
  }

  /** The launch arguments parse back to the settings they were built from, in foreground mode. */
  lemma BackgroundArgsParse(addr: string, endpoint: string, apiKey: string, open: bool, openURL: string)
    ensures ParseCommand(["ui", "--addr", addr, "--endpoint", endpoint, "--foreground"]
                         + (if apiKey != "" then ["--api-key", apiKey] else [])
                         + (if open then ["--open"] else [])
                         + (if openURL != "" then ["--open-url", openURL] else []))
            == Some(UiFlags(addr, endpoint, apiKey, open, openURL, true))
  {
    var fixed := ["ui", "--addr", addr, "--endpoint", endpoint, "--foreground"];
    var a: seq<string> := if apiKey != "" then ["--api-key", apiKey] else [];
    var o: seq<string> := if open then ["--open"] else [];
    var u: seq<string> := if openURL != "" then ["--open-url", openURL] else [];
    assert fixed + a + o + u == fixed + (a + o + u);
    var f := UiFlags(addr, endpoint, "", false, "", true);
    OptionalFlagsParse(f, apiKey, open, openURL);
    FixedFlagsParse(addr, endpoint, a + o + u);
    assert f.(apiKey := if apiKey != "" then apiKey else f.apiKey, open := open || f.open, openURL := if openURL != "" then openURL else f.openURL)
           == UiFlags(addr, endpoint, apiKey, open, openURL, true);
  }

  /** The value-taking flags of `favus ui`. */
  predicate TakesValue(flag: string) {
    flag == "--addr" || flag == "--endpoint" || flag == "--api-key" || flag == "--open-url"
  }

  /**
   * A reference reading of a `favus ui` argument list, in the separate-value
   * style the background launch uses: the subcommand, then flags, each
   * value-taking flag followed by its value. None for anything else.
   */
  function ParseCommand(args: seq<string>): Option<UiFlags> {
    if args == [] || args[0] != "ui" then None else ParseFlags(args[1..], DefaultFlags)
  }

  function ParseFlags(args: seq<string>, f: UiFlags): Option<UiFlags>
    decreases |args|
  {
    if args == [] then Some(f)
    else if args[0] == "--foreground" then ParseFlags(args[1..], f.(foreground := true))
    else if args[0] == "--open" then ParseFlags(args[1..], f.(open := true))
    else if !TakesValue(args[0]) || |args| < 2 then None
    else
      var v := args[1];
      var g := if args[0] == "--addr" then f.(addr := v)
               else if args[0] == "--endpoint" then f.(endpoint := v)
               else if args[0] == "--api-key" then f.(apiKey := v)
               else f.(openURL := v);
      ParseFlags(args[2..], g)
  }

  /** The optional tail sets exactly the optional flags it lists. */
  lemma OptionalFlagsParse(f: UiFlags, apiKey: string, open: bool, openURL: string)
    ensures ParseFlags((if apiKey != "" then ["--api-key", apiKey] else []) + (if open then ["--open"] else []) + (if openURL != "" then ["--open-url", openURL] else []), f)
            == Some(f.(apiKey := if apiKey != "" then apiKey else f.apiKey, open := open || f.open, openURL := if openURL != "" then openURL else f.openURL))
  {
    var a: seq<string> := if apiKey != "" then ["--api-key", apiKey] else [];
    var o: seq<string> := if open then ["--open"] else [];
    var u: seq<string> := if openURL != "" then ["--open-url", openURL] else [];
    var f1 := f.(apiKey := if apiKey != "" then apiKey else f.apiKey);
    var f2 := f1.(open := open || f.open);
    var f3 := f2.(openURL := if openURL != "" then openURL else f.openURL);
    assert ParseFlags(u, f2) == Some(f3) by {
      if openURL != "" { assert u[2..] == []; }
    }
    assert ParseFlags(o + u, f1) == Some(f3) by {
      if open { assert (o + u)[1..] == u; }
      else { assert o + u == u; }
    }
    assert ParseFlags(a + o + u, f) == Some(f3) by {
      if apiKey != "" { assert (a + o + u)[2..] == o + u; }
      else { assert a + o + u == o + u; }
    }
  }

  /** The fixed head of the launch arguments sets the address, the endpoint and foreground mode. */
  lemma FixedFlagsParse(addr: string, endpoint: string, tail: seq<string>)
    ensures ParseCommand(["ui", "--addr", addr, "--endpoint", endpoint, "--foreground"] + tail) ==
            ParseFlags(tail, UiFlags(addr, endpoint, "", false, "", true))
  {
    var args := ["ui", "--addr", addr, "--endpoint", endpoint, "--foreground"] + tail;
    var a1 := args[1..];
    assert a1[0] == "--addr" && a1[1] == addr;
    var a2 := a1[2..];
    assert a2[0] == "--endpoint" && a2[1] == endpoint;
    var a3 := a2[2..];
    assert a3[0] == "--foreground" && a3[1..] == tail;
    var f1 := DefaultFlags.(addr := addr);
    var f2 := f1.(endpoint := endpoint);
    assert ParseFlags(a1, DefaultFlags) == ParseFlags(a2, f1);
    assert ParseFlags(a2, f1) == ParseFlags(a3, f2);
    assert ParseFlags(a3, f2) == ParseFlags(tail, f2.(foreground := true));
    assert f2.(foreground := true) == UiFlags(addr, endpoint, "", false, "", true);
  }

  // ---- deriving the UI address from the WebSocket endpoint ----

  /**
   * What url.Parse records of a URL: the lower-cased scheme, the opaque
   * text of a rootless URL, the userinfo and host of an authority, whether
   * an empty authority was left out, the path as written, whether a lone
   * trailing '?' forced an empty query, the query and the fragment.
   */
  datatype Url = Url(scheme: string, opaqueText: string, user: Option<string>, host: string, omitHost: bool,
                     path: string, forceQuery: bool, rawQuery: string, fragment: string)

  /** The index of the first character of s in cs, or |s| when there is none. */
  function IndexOfAny(s: string, cs: set<char>): (r: nat)
    ensures r <= |s|
    ensures forall j :: 0 <= j < r ==> s[j] !in cs
    ensures r < |s| ==> s[r] in cs
    decreases |s|
  {
    if s == [] then 0
    else if s[0] in cs then 0
    else 1 + IndexOfAny(s[1..], cs)
  }

  /** The index of the last c in s, if there is one. */
  function LastIndexOf(s: string, c: char): (r: Option<nat>)
    ensures r.Some? ==> r.value < |s| && s[r.value] == c && forall j :: r.value < j < |s| ==> s[j] != c
    ensures r.None? ==> forall j :: 0 <= j < |s| ==> s[j] != c
    decreases |s|
  {
    if s == [] then None
    else if s[|s| - 1] == c then Some(|s| - 1)
    else LastIndexOf(s[..|s| - 1], c)
  }

  /** ASCII control characters, which url.Parse refuses before the fragment. */
  predicate IsCtl(c: char) {
    c < ' ' || c == '\U{7F}'
  }

  predicate NoCtl(s: string) {
    forall j :: 0 <= j < |s| ==> !IsCtl(s[j])
  }

  predicate IsLetter(c: char) {
    ('a' <= c <= 'z') || ('A' <= c <= 'Z')
  }

  predicate IsAlnum(c: char) {
    IsLetter(c) || ('0' <= c <= '9')
  }

  predicate IsHex(c: char) {
    ('0' <= c <= '9') || ('a' <= c <= 'f') || ('A' <= c <= 'F')
  }

  /** A hex digit of 8 or more: the escape it starts is of a non-ASCII byte. */
  predicate IsHighHex(c: char) {
    ('8' <= c <= '9') || ('a' <= c <= 'f') || ('A' <= c <= 'F')
  }

  /** unescape's check for paths, fragments and userinfo: each '%' starts an escape of two hex digits. */
  predicate EscapesValid(s: string)
    decreases |s|
  {
    if s == [] then true
    else if s[0] == '%' then |s| >= 3 && IsHex(s[1]) && IsHex(s[2]) && EscapesValid(s[3..])
    else EscapesValid(s[1..])
  }

  /** The ASCII characters a host may hold as they are: letters, digits, sub-delimiters, ':', brackets, '<', '>', '"' and the unreserved marks. */
  predicate HostChar(c: char) {
    IsAlnum(c) || c == '!' || c == '$' || c == '&' || c == '\'' || c == '(' || c == ')' || c == '*'
      || c == '+' || c == ',' || c == ';' || c == '=' || c == ':' || c == '[' || c == ']' || c == '<'
      || c == '>' || c == '"' || c == '-' || c == '_' || c == '.' || c == '~'
  }

  /**
   * unescape's check in host mode: a '%' starts an escape of a non-ASCII
   * byte or is "%25"; any other ASCII character is a host character.
   */
  predicate HostEscapesValid(h: string)
    decreases |h|
  {
    if h == [] then true
    else if h[0] == '%' then
      |h| >= 3 && IsHex(h[1]) && IsHex(h[2]) && (IsHighHex(h[1]) || (h[1] == '2' && h[2] == '5')) && HostEscapesValid(h[3..])
    else (h[0] >= '\U{80}' || HostChar(h[0])) && HostEscapesValid(h[1..])
  }

  /** validOptionalPort: nothing, or ':' followed by decimal digits only. */
  predicate ValidOptionalPort(p: string) {
    p == "" || (p[0] == ':' && forall j :: 1 <= j < |p| ==> '0' <= p[j] <= '9')
  }

  /**
   * parseHost: a host in brackets needs a last ']' with an optional port
   * after it; any other host may end in an optional port after its last
   * ':'; and every host must pass unescape in host mode.
   */
  predicate HostValid(h: string) {
    && (if h != "" && h[0] == '[' then
          LastIndexOf(h, ']').Some? && ValidOptionalPort(h[LastIndexOf(h, ']').value + 1..])
        else
          LastIndexOf(h, ':').None? || ValidOptionalPort(h[LastIndexOf(h, ':').value..]))
    && HostEscapesValid(h)
  }

  /** validUserinfo: letters, digits and - . _ : ~ ! $ & ' ( ) * + , ; = % @ only. */
  predicate ValidUserinfo(s: string) {
    forall j :: 0 <= j < |s| ==>
      IsAlnum(s[j]) || s[j] == '-' || s[j] == '.' || s[j] == '_' || s[j] == ':' || s[j] == '~' || s[j] == '!'
        || s[j] == '$' || s[j] == '&' || s[j] == '\'' || s[j] == '(' || s[j] == ')' || s[j] == '*' || s[j] == '+'
        || s[j] == ',' || s[j] == ';' || s[j] == '=' || s[j] == '%' || s[j] == '@'
  }

  /**
   * parseAuthority: the userinfo runs up to the last '@' and must be valid
   * with valid escapes (splitting it at its first ':' into user name and
   * password cuts no escape); the host after it must be valid. None when
   * either is refused.
   */
  function ParseAuthority(a: string): (r: Option<(Option<string>, string)>)
    ensures r.Some? ==> HostValid(r.value.1)
    ensures r.Some? && r.value.0.Some? ==> ValidUserinfo(r.value.0.value) && EscapesValid(r.value.0.value)
  {
    match LastIndexOf(a, '@')
    case None => if HostValid(a) then Some((None, a)) else None
    case Some(i) =>
      if HostValid(a[i + 1..]) && ValidUserinfo(a[..i]) && EscapesValid(a[..i]) then Some((Some(a[..i]), a[i + 1..]))
      else None
  }

  predicate SchemeChar(c: char) {
    IsAlnum(c) || c == '+' || c == '-' || c == '.'
  }

  /** RFC 3986 scheme syntax: a letter, then letters, digits, '+', '-' or '.'. */
  predicate ValidScheme(s: string) {
    |s| > 0 && IsLetter(s[0]) && forall i :: 0 <= i < |s| ==> SchemeChar(s[i])
  }

  /** The number of leading characters of s that may appear in a scheme. */
  function SchemePrefix(s: string): (k: nat)
    ensures k <= |s|
    ensures forall j :: 0 <= j < k ==> SchemeChar(s[j])
    ensures k < |s| ==> !SchemeChar(s[k])
    decreases |s|
  {
    if s == [] || !SchemeChar(s[0]) then 0 else 1 + SchemePrefix(s[1..])
  }

  /**
   * getScheme: a scheme is a letter followed by scheme characters up to a
   * ':', and the rest follows that ':'; a ':' at the very start is refused
   * (None); any other text has no scheme and is all rest.
   */
  function GetScheme(s: string): (r: Option<(string, string)>)
    ensures r.Some? && r.value.0 != "" ==> ValidScheme(r.value.0) && s == r.value.0 + ":" + r.value.1
    ensures r.Some? && r.value.0 == "" ==> r.value.1 == s
    ensures r.None? <==> s != [] && s[0] == ':'
  {
    var k := SchemePrefix(s);
    if k < |s| && s[k] == ':' then
      if k == 0 then None
      else if IsLetter(s[0]) then
        assert s == s[..k] + ":" + s[k + 1..];
        Some((s[..k], s[k + 1..]))
      else Some(("", s))
    else Some(("", s))
  }

  /**
   * The query of what follows the scheme: a lone '?' at the very end forces
   * an empty query; otherwise the query is what follows the first '?'.
   * The rest keeps no '?'.
   */
  function SplitQuery(rest: string): (r: (string, bool, string))
    ensures |r.0| <= |rest| && r.0 == rest[..|r.0|]
    ensures forall j :: 0 <= j < |r.0| ==> r.0[j] != '?'
  {
    var q := IndexOfAny(rest, {'?'});
    if q == |rest| - 1 then (rest[..q], true, "")
    else (rest[..q], false, if q < |rest| then rest[q + 1..] else "")
  }

  /**
   * parse after the scheme: rootless text after a scheme is opaque;
   * without a scheme, a first segment holding ':' is refused; "//" (not
   * "///" without a scheme) starts an authority that runs to the next '/';
   * a scheme with a single leading '/' leaves the empty authority out; the
   * path must have valid escapes.
   */
  function ParseRest(scheme: string, rest0: string, frag: string): Option<Url> {
    var (rest, fq, query) := SplitQuery(rest0);
    if !HasPrefix(rest, "/") && scheme != "" then Some(Url(scheme, rest, None, "", false, "", fq, query, frag))
    else if !HasPrefix(rest, "/") && ':' in rest[..IndexOfAny(rest, {'/'})] then None
    else if (scheme != "" || !HasPrefix(rest, "///")) && HasPrefix(rest, "//") then
      var a := IndexOfAny(rest[2..], {'/'});
      match ParseAuthority(rest[2..][..a])
      case None => None
      case Some((user, host)) =>
        if EscapesValid(rest[2..][a..]) then Some(Url(scheme, "", user, host, false, rest[2..][a..], fq, query, frag))
        else None
    else if EscapesValid(rest) then Some(Url(scheme, "", None, "", scheme != "" && HasPrefix(rest, "/"), rest, fq, query, frag))
    else None
  }

  /**
   * url.Parse: the fragment is cut off at the first '#' and needs valid
   * escapes; the text before it must hold no control character; then the
   * scheme (lower-cased), the query, and the authority and path.
   */
  function Parse(s: string): Option<Url> {
    var f := IndexOfAny(s, {'#'});
    var frag := if f < |s| then s[f + 1..] else "";
    if !NoCtl(s[..f]) || !EscapesValid(frag) then None
    else
      match GetScheme(s[..f])
      case None => None
      case Some((scheme, rest)) => ParseRest(ToLower(scheme), rest, frag)
  }

  /** ws becomes http and wss becomes https; other schemes are kept. */
  function UiScheme(scheme: string): (r: string)
    ensures ToLower(scheme) == "ws" ==> r == "http"
    ensures ToLower(scheme) == "wss" ==> r == "https"
    ensures ToLower(scheme) != "ws" && ToLower(scheme) != "wss" ==> r == scheme
  {
    if ToLower(scheme) == "ws" then "http"
    else if ToLower(scheme) == "wss" then "https"
    else scheme
  }

  /**
   * The path String writes once the path is set to "/": "/" itself, except
   * that a relative "%2F" (or "%2f"), which already unescapes to "/", is
   * kept as the raw path it was.
   */
  function RootPath(u: Url): string {
    if u.path == "%2F" || u.path == "%2f" then u.path else "/"
  }

  /**
   * url.URL.String once the path is "/" and the query and fragment are
   * gone: the scheme and ':'; then the opaque text, or else "//", the
   * userinfo and '@', and the host (unless there is neither scheme,
   * userinfo nor host, or the empty authority was left out) followed by the
   * path; a forced empty query keeps its '?'.
   */
  function RootString(u: Url): string {
    if u.opaqueText != "" then SchemeMark(u.scheme) + u.opaqueText + QueryMark(u.forceQuery)
    else if (u.scheme != "" || u.host != "" || u.user.Some?) && !(u.omitHost && u.host == "" && u.user.None?) then
      SchemeMark(u.scheme) + "//" + (UserMark(u.user) + u.host) + RootPath(u) + QueryMark(u.forceQuery)
    else SchemeMark(u.scheme) + RootPath(u) + QueryMark(u.forceQuery)
  }

  /**
   * deriveUIURL: the endpoint unchanged when url.Parse refuses it;
   * otherwise the parsed URL under the UI scheme, written with path "/"
   * and no query or fragment.
   */
  function DeriveUIURL(ws: string): (r: string)
    ensures Parse(ws).None? ==> r == ws
    ensures Parse(ws).Some? ==> r == RootString(Parse(ws).value.(scheme := UiScheme(Parse(ws).value.scheme)))
  {
    match Parse(ws)
    case None => ws
    case Some(u) => RootString(u.(scheme := UiScheme(u.scheme)))
  }

  /** The '?' String writes for a forced empty query. */
  function QueryMark(fq: bool): string {
    if fq then "?" else ""
  }

  /** The scheme and ':' String writes in front of everything else. */
  function SchemeMark(scheme: string): string {
    if scheme != "" then scheme + ":" else ""
  }

  /** The userinfo and '@' String writes in front of the host. */
  function UserMark(user: Option<string>): string {
    if user.Some? then user.value + "@" else ""
  }

  /** Text that stops no part of a URL early: no '?', no '#', no control character. */
  predicate NoBreak(s: string) {
    forall j :: 0 <= j < |s| ==> s[j] != '?' && s[j] != '#' && !IsCtl(s[j])
  }

  /** The first character from cs is at position k when none comes before it. */
  lemma {:induction false} IndexOfAnyAt(s: string, cs: set<char>, k: nat)
    requires k <= |s| && (forall j :: 0 <= j < k ==> s[j] !in cs) && (k < |s| ==> s[k] in cs)
    ensures IndexOfAny(s, cs) == k
    decreases k
  {
    if k > 0 {
      assert s[0] !in cs;
      IndexOfAnyAt(s[1..], cs, k - 1);
    }
  }

  /** The last c is at position k when none comes after it. */
  lemma {:induction false} LastIndexOfAt(s: string, c: char, k: nat)
    requires k < |s| && s[k] == c && forall j :: k < j < |s| ==> s[j] != c
    ensures LastIndexOf(s, c) == Some(k)
    decreases |s|
  {
    if k < |s| - 1 {
      assert s[|s| - 1] != c;
      assert s[..|s| - 1][k] == c;
      LastIndexOfAt(s[..|s| - 1], c, k);
    }
  }

  /** The scheme characters of s end at position k when s[k] is none. */
  lemma {:induction false} SchemePrefixAt(s: string, k: nat)
    requires k <= |s| && (forall j :: 0 <= j < k ==> SchemeChar(s[j])) && (k < |s| ==> !SchemeChar(s[k]))
    ensures SchemePrefix(s) == k
    decreases k
  {
    if k > 0 {
      SchemePrefixAt(s[1..], k - 1);
    }
  }

  /** A valid scheme followed by ':' is split off whole. */
  lemma GetSchemeOf(scheme: string, rest: string)
    requires ValidScheme(scheme)
    ensures GetScheme(scheme + ":" + rest) == Some((scheme, rest))
  {
    var s := scheme + ":" + rest;
    assert s[|scheme|] == ':';
    SchemePrefixAt(s, |scheme|);
    assert s[..|scheme|] == scheme && s[|scheme| + 1..] == rest;
  }

  /** Text without '?' keeps a trailing lone '?' as a forced empty query. */
  lemma SplitQueryOf(r: string, fq: bool)
    requires forall j :: 0 <= j < |r| ==> r[j] != '?'
    ensures SplitQuery(r + QueryMark(fq)) == (r, fq, "")
  {
    var s := r + QueryMark(fq);
    IndexOfAnyAt(s, {'?'}, |r|);
    assert s[..|r|] == r;
  }

  /** A host url.Parse accepts holds no '/', '?', '#', '@' and no control character. */
  lemma HostValidChars(h: string)
    requires HostValid(h)
    ensures forall j :: 0 <= j < |h| ==> h[j] != '/' && h[j] != '@' && h[j] != '?' && h[j] != '#' && !IsCtl(h[j])
  {
    HostEscapesChars(h);
  }

  /** Text that passes unescape in host mode holds no '/', '?', '#', '@' and no control character. */
  lemma {:induction false} HostEscapesChars(h: string)
    requires HostEscapesValid(h)
    ensures forall j :: 0 <= j < |h| ==> h[j] != '/' && h[j] != '@' && h[j] != '?' && h[j] != '#' && !IsCtl(h[j])
    decreases |h|
  {
    if h != [] {
      var k := if h[0] == '%' then 3 else 1;
      HostEscapesChars(h[k..]);
      forall j | k <= j < |h|
        ensures h[j] != '/' && h[j] != '@' && h[j] != '?' && h[j] != '#' && !IsCtl(h[j])
      {
        assert h[j] == h[k..][j - k];
      }
    }
  }

  /** url.Parse accepts a host alone exactly when the host is valid. */
  lemma ParseAuthorityHost(host: string)
    requires forall j :: 0 <= j < |host| ==> host[j] != '@'
    ensures ParseAuthority(host) == if HostValid(host) then Some((None, host)) else None
  {
  }

  /** Userinfo, '@' and a valid host split back into that userinfo and that host. */
  lemma ParseAuthorityOf(user: Option<string>, host: string)
    requires HostValid(host)
    requires user.Some? ==> ValidUserinfo(user.value) && EscapesValid(user.value)
    ensures ParseAuthority(UserMark(user) + host) == Some((user, host))
  {
    var a := UserMark(user) + host;
    if user.Some? {
      var i := |user.value|;
      HostValidChars(host);
      LastIndexOfAfter(user.value, '@', host);
      assert a[..i] == user.value && a[i + 1..] == host;
      ParseAuthoritySplit(user.value, host, a);
    } else {
      assert a == host;
      HostValidChars(host);
      ParseAuthorityHost(host);
    }
  }

  /** In p + [c] + t the last c is the one after p when t holds none. */
  lemma {:induction false} LastIndexOfAfter(p: string, c: char, t: string)
    requires forall j :: 0 <= j < |t| ==> t[j] != c
    ensures LastIndexOf(p + [c] + t, c) == Some(|p|)
    decreases |t|
  {
    var s := p + [c] + t;
    if t == [] {
      assert s == p + [c];
    } else {
      var t' := t[..|t| - 1];
      assert s[..|s| - 1] == p + [c] + t';
      assert s[|s| - 1] == t[|t| - 1];
      LastIndexOfAfter(p, c, t');
    }
  }


  /** An authority whose last '@' ends valid userinfo and starts a valid host splits there. */
  lemma ParseAuthoritySplit(userinfo: string, host: string, a: string)
    requires HostValid(host) && ValidUserinfo(userinfo) && EscapesValid(userinfo)
    requires LastIndexOf(a, '@') == Some(|userinfo|)
    requires |userinfo| < |a| && a[..|userinfo|] == userinfo && a[|userinfo| + 1..] == host
    ensures ParseAuthority(a) == Some((Some(userinfo), host))
  {
  }

  /** Text without '#' or control characters is parsed whole, with no fragment. */
  lemma ParseClean(s: string)
    requires forall j :: 0 <= j < |s| ==> s[j] != '#' && !IsCtl(s[j])
    ensures Parse(s) == match GetScheme(s)
                        case None => None
                        case Some((sc, rest)) => ParseRest(ToLower(sc), rest, "")
  {
    IndexOfAnyAt(s, {'#'}, |s|);
    assert s[..|s|] == s;
  }

  /** What url.Parse makes of a parsed authority and a path after a scheme. */
  function WithAuthority(scheme: string, pa: Option<(Option<string>, string)>, path: string, fq: bool): Option<Url> {
    match pa
    case None => None
    case Some((user, host)) => if EscapesValid(path) then Some(Url(scheme, "", user, host, false, path, fq, "", "")) else None
  }

  /** "//", an authority and a path (with a scheme, or with a non-empty authority): the authority decides. */
  lemma ParseRestAuthority(scheme: string, auth: string, path: string, fq: bool)
    requires forall j :: 0 <= j < |auth| ==> auth[j] != '/' && auth[j] != '?'
    requires scheme != "" || auth != ""
    requires path == "" || path[0] == '/'
    requires forall j :: 0 <= j < |path| ==> path[j] != '?'
    ensures ParseRest(scheme, "//" + auth + path + QueryMark(fq), "") == WithAuthority(scheme, ParseAuthority(auth), path, fq)
  {
    var rest := "//" + auth + path;
    assert SplitQuery(rest + QueryMark(fq)) == (rest, fq, "") by {
      AuthorityTextNoQuery(auth, path);
      SplitQueryOf(rest, fq);
    }
    assert HasPrefix(rest, "/") && HasPrefix(rest, "//");
    if scheme == "" {
      assert rest[2] == auth[0];
      assert !HasPrefix(rest, "///");
    }
    AuthorityTextSplit(auth, path);
  }

  /** "//" + auth + path holds no '?' when neither part does. */
  lemma AuthorityTextNoQuery(auth: string, path: string)
    requires forall j :: 0 <= j < |auth| ==> auth[j] != '?'
    requires forall j :: 0 <= j < |path| ==> path[j] != '?'
    ensures forall j :: 0 <= j < |"//" + auth + path| ==> ("//" + auth + path)[j] != '?'
  {
    var rest := "//" + auth + path;
    forall j | 0 <= j < |rest|
      ensures rest[j] != '?'
    {
      if 2 <= j < 2 + |auth| {
        assert rest[j] == auth[j - 2];
      } else if 2 + |auth| <= j {
        assert rest[j] == path[j - 2 - |auth|];
      }
    }
  }

  /** After the leading "//", the authority runs up to the first '/', which is where the path starts. */
  lemma AuthorityTextSplit(auth: string, path: string)
    requires forall j :: 0 <= j < |auth| ==> auth[j] != '/'
    requires path == "" || path[0] == '/'
    ensures var tail := ("//" + auth + path)[2..];
      IndexOfAny(tail, {'/'}) == |auth| && tail[..|auth|] == auth && tail[|auth|..] == path
  {
    var tail := ("//" + auth + path)[2..];
    assert tail == auth + path;
    forall j | 0 <= j < |auth|
      ensures tail[j] !in {'/'}
    {
      assert tail[j] == auth[j];
    }
    IndexOfAnyAt(tail, {'/'}, |auth|);
    assert tail[..|auth|] == auth && tail[|auth|..] == path;
  }


  /** The scheme mark and a rest starting with '/' split back into that scheme and that rest. */
  lemma GetSchemeMark(scheme: string, rest: string)
    requires scheme == "" || ValidScheme(scheme)
    requires rest != [] && rest[0] == '/'
    ensures GetScheme(SchemeMark(scheme) + rest) == Some((scheme, rest))
  {
    if scheme != "" {
      GetSchemeOf(scheme, rest);
    } else {
      assert !SchemeChar(rest[0]);
      assert SchemeMark(scheme) + rest == rest;
    }
  }

  /** The text of scheme://authority path?: no '#' and no control character. */
  lemma AuthorityTextClean(scheme: string, auth: string, path: string, fq: bool)
    requires scheme == "" || ValidScheme(scheme)
    requires forall j :: 0 <= j < |auth| ==> auth[j] != '#' && !IsCtl(auth[j])
    requires NoBreak(path)
    ensures var s := SchemeMark(scheme) + "//" + auth + path + QueryMark(fq);
      forall j :: 0 <= j < |s| ==> s[j] != '#' && !IsCtl(s[j])
  {
    var s := SchemeMark(scheme) + "//" + auth + path + QueryMark(fq);
    forall j | 0 <= j < |s|
      ensures s[j] != '#' && !IsCtl(s[j])
    {
      var m := |SchemeMark(scheme)|;
      if j < m {
        if j < |scheme| {
          assert s[j] == scheme[j] && SchemeChar(scheme[j]);
        }
      } else if m + 2 <= j < m + 2 + |auth| {
        assert s[j] == auth[j - m - 2];
      } else if m + 2 + |auth| <= j < m + 2 + |auth| + |path| {
        assert s[j] == path[j - m - 2 - |auth|];
      }
    }
  }

  /**
   * scheme://authority path, or //authority path without a scheme, with a
   * forced empty query when fq: the authority decides, and the path must
   * have valid escapes.
   */
  lemma ParseWithAuthority(scheme: string, auth: string, path: string, fq: bool)
    requires scheme == "" || (ValidScheme(scheme) && ToLower(scheme) == scheme)
    requires forall j :: 0 <= j < |auth| ==> auth[j] != '/' && auth[j] != '?' && auth[j] != '#' && !IsCtl(auth[j])
    requires scheme != "" || auth != ""
    requires path == "" || path[0] == '/'
    requires NoBreak(path)
    ensures Parse(SchemeMark(scheme) + "//" + auth + path + QueryMark(fq)) == WithAuthority(scheme, ParseAuthority(auth), path, fq)
  {
    ParseAuthorityText(scheme, auth, path, fq);
    ParseRestAuthority(scheme, auth, path, fq);
  }

  /** A scheme mark followed by "//", an authority and a path goes to ParseRest whole. */
  lemma ParseAuthorityText(scheme: string, auth: string, path: string, fq: bool)
    requires scheme == "" || (ValidScheme(scheme) && ToLower(scheme) == scheme)
    requires forall j :: 0 <= j < |auth| ==> auth[j] != '#' && !IsCtl(auth[j])
    requires NoBreak(path)
    ensures Parse(SchemeMark(scheme) + "//" + auth + path + QueryMark(fq)) == ParseRest(scheme, "//" + auth + path + QueryMark(fq), "")
  {
    var rest0 := "//" + auth + path + QueryMark(fq);
    assert SchemeMark(scheme) + "//" + auth + path + QueryMark(fq) == SchemeMark(scheme) + rest0;
    AuthorityTextClean(scheme, auth, path, fq);
    ParseMarked(scheme, rest0);
  }

  /** Text after a scheme mark that starts with '/' and holds no '#' or control character goes to ParseRest whole. */
  lemma ParseMarked(scheme: string, rest0: string)
    requires scheme == "" || (ValidScheme(scheme) && ToLower(scheme) == scheme)
    requires rest0 != [] && rest0[0] == '/'
    requires forall j :: 0 <= j < |SchemeMark(scheme) + rest0| ==> (SchemeMark(scheme) + rest0)[j] != '#' && !IsCtl((SchemeMark(scheme) + rest0)[j])
    ensures Parse(SchemeMark(scheme) + rest0) == ParseRest(scheme, rest0, "")
  {
    ParseClean(SchemeMark(scheme) + rest0);
    GetSchemeMark(scheme, rest0);
  }

  /** scheme:/ with a forced empty query when fq: the empty authority is left out. */
  lemma ParseOmitted(scheme: string, fq: bool)
    requires ValidScheme(scheme) && ToLower(scheme) == scheme
    ensures Parse(scheme + ":/" + QueryMark(fq)) == Some(Url(scheme, "", None, "", true, "/", fq, "", ""))
  {
    var rest0 := "/" + QueryMark(fq);
    var s := scheme + ":" + rest0;
    assert scheme + ":/" + QueryMark(fq) == s;
    forall j | 0 <= j < |s|
      ensures s[j] != '#' && !IsCtl(s[j])
    {
      if j < |scheme| {
        assert s[j] == scheme[j] && SchemeChar(scheme[j]);
      }
    }
    ParseClean(s);
    GetSchemeOf(scheme, rest0);
    ParseRestOmitted(scheme, fq);
  }

  /** A single '/' after a scheme leaves the empty authority out. */
  lemma ParseRestOmitted(scheme: string, fq: bool)
    requires scheme != ""
    ensures ParseRest(scheme, "/" + QueryMark(fq), "") == Some(Url(scheme, "", None, "", true, "/", fq, "", ""))
  {
    SplitQueryOf("/", fq);
    assert HasPrefix("/", "/") && !HasPrefix("/", "//");
  }

  /** scheme:opaque with a forced empty query when fq: rootless text after a scheme is opaque. */
  lemma ParseOpaque(scheme: string, op: string, fq: bool)
    requires ValidScheme(scheme) && ToLower(scheme) == scheme
    requires op != "" && op[0] != '/' && NoBreak(op)
    ensures Parse(scheme + ":" + op + QueryMark(fq)) == Some(Url(scheme, op, None, "", false, "", fq, "", ""))
  {
    var rest0 := op + QueryMark(fq);
    var s := scheme + ":" + rest0;
    assert scheme + ":" + op + QueryMark(fq) == s;
    forall j | 0 <= j < |s|
      ensures s[j] != '#' && !IsCtl(s[j])
    {
      if j < |scheme| {
        assert s[j] == scheme[j] && SchemeChar(scheme[j]);
      } else if |scheme| < j < |scheme| + 1 + |op| {
        assert s[j] == op[j - |scheme| - 1];
      }
    }
    ParseClean(s);
    GetSchemeOf(scheme, rest0);
    ParseRestOpaque(scheme, op, fq);
  }

  /** Rootless text after a scheme, with a forced empty query when fq, is opaque. */
  lemma ParseRestOpaque(scheme: string, op: string, fq: bool)
    requires scheme != ""
    requires op != "" && op[0] != '/' && forall j :: 0 <= j < |op| ==> op[j] != '?'
    ensures ParseRest(scheme, op + QueryMark(fq), "") == Some(Url(scheme, op, None, "", false, "", fq, "", ""))
  {
    SplitQueryOf(op, fq);
    assert !HasPrefix(op, "/");
  }

  /**
   * A relative reference with a forced empty query when fq: no scheme, no
   * authority, and no ':' in a first segment that does not start at '/';
   * it is all path.
   */
  lemma ParseRelative(path: string, fq: bool)
    requires NoBreak(path) && EscapesValid(path)
    requires GetScheme(path + QueryMark(fq)) == Some(("", path + QueryMark(fq)))
    requires !HasPrefix(path, "//") || HasPrefix(path, "///")
    requires !HasPrefix(path, "/") ==> ':' !in path[..IndexOfAny(path, {'/'})]
    ensures Parse(path + QueryMark(fq)) == Some(Url("", "", None, "", false, path, fq, "", ""))
  {
    var s := path + QueryMark(fq);
    forall j | 0 <= j < |s|
      ensures s[j] != '#' && !IsCtl(s[j])
    {
      if j < |path| {
        assert s[j] == path[j];
      }
    }
    ParseClean(s);
    ParseRestRelative(path, fq);
  }

  /** Without a scheme, a path that starts no authority is all path. */
  lemma ParseRestRelative(path: string, fq: bool)
    requires (forall j :: 0 <= j < |path| ==> path[j] != '?') && EscapesValid(path)
    requires !HasPrefix(path, "//") || HasPrefix(path, "///")
    requires !HasPrefix(path, "/") ==> ':' !in path[..IndexOfAny(path, {'/'})]
    ensures ParseRest("", path + QueryMark(fq), "") == Some(Url("", "", None, "", false, path, fq, "", ""))
  {
    SplitQueryOf(path, fq);
  }

  /** How String writes a URL with "//": the scheme mark, "//", the userinfo and host, and the root. */
  lemma RootStringAuthority(u: Url)
    requires u.opaqueText == "" && RootPath(u) == "/"
    requires (u.scheme != "" || u.host != "" || u.user.Some?) && !(u.omitHost && u.host == "" && u.user.None?)
    ensures RootString(u) == SchemeMark(u.scheme) + "//" + (UserMark(u.user) + u.host) + "/" + QueryMark(u.forceQuery)
  {
  }

  /** What url.Parse guarantees of the parts String writes back. */
  ghost predicate WellFormed(u: Url) {
    && (u.scheme == "" || (ValidScheme(u.scheme) && ToLower(u.scheme) == u.scheme))
    && (u.opaqueText != "" ==> u.scheme != "" && u.opaqueText[0] != '/' && NoBreak(u.opaqueText))
    && (u.user.Some? ==> ValidUserinfo(u.user.value) && EscapesValid(u.user.value))
    && HostValid(u.host)
    && ((u.path == "%2F" || u.path == "%2f") ==> u.scheme == "" && u.host == "" && u.user.None?)
  }

  /** Whatever follows a scheme without '#' or control characters parses to a well-formed URL, if at all. */
  lemma ParseRestWellFormed(scheme: string, rest0: string, frag: string)
    requires scheme == "" || (ValidScheme(scheme) && ToLower(scheme) == scheme)
    requires forall j :: 0 <= j < |rest0| ==> rest0[j] != '#' && !IsCtl(rest0[j])
    requires ParseRest(scheme, rest0, frag).Some?
    ensures WellFormed(ParseRest(scheme, rest0, frag).value)
  {
    var (rest, fq, query) := SplitQuery(rest0);
    var u := ParseRest(scheme, rest0, frag).value;
    assert HostValid("");
    if !HasPrefix(rest, "/") && scheme != "" {
      assert u == Url(scheme, rest, None, "", false, "", fq, query, frag);
      forall j | 0 <= j < |rest|
        ensures rest[j] != '?' && rest[j] != '#' && !IsCtl(rest[j])
      {
        assert rest[j] == rest0[j];
      }
    } else if !HasPrefix(rest, "/") && ':' in rest[..IndexOfAny(rest, {'/'})] {
    } else if (scheme != "" || !HasPrefix(rest, "///")) && HasPrefix(rest, "//") {
      var a := IndexOfAny(rest[2..], {'/'});
      var path := rest[2..][a..];
      assert u.path == path && u.opaqueText == "";
      assert path == "" || path[0] == '/';
    } else {
      assert u == Url(scheme, "", None, "", scheme != "" && HasPrefix(rest, "/"), rest, fq, query, frag);
      if scheme != "" && rest != "" {
        assert rest[0] == '/';
      }
    }
  }

  /** Every URL url.Parse accepts is well formed. */
  lemma ParsedWellFormed(ws: string)
    requires Parse(ws).Some?
    ensures WellFormed(Parse(ws).value)
  {
    var f := IndexOfAny(ws, {'#'});
    var frag := if f < |ws| then ws[f + 1..] else "";
    var (sc, rest0) := GetScheme(ws[..f]).value;
    if sc != "" {
      LowerSchemeValid(sc);
    }
    GetSchemeRestClean(ws[..f]);
    ParseRestWellFormed(ToLower(sc), rest0, frag);
  }

  /** A valid scheme stays valid in lower case, and lower-casing it again changes nothing. */
  lemma LowerSchemeValid(sc: string)
    requires ValidScheme(sc)
    ensures ValidScheme(ToLower(sc)) && ToLower(ToLower(sc)) == ToLower(sc)
  {
    var l := ToLower(sc);
    forall j | 0 <= j < |l|
      ensures SchemeChar(l[j])
    {
      assert SchemeChar(sc[j]);
    }
    ToLowerIdempotent(sc);
    assert IsLetter(sc[0]);
  }

  /** What follows the scheme holds no '#' or control character when the whole text holds none. */
  lemma GetSchemeRestClean(pre: string)
    requires forall j :: 0 <= j < |pre| ==> pre[j] != '#' && !IsCtl(pre[j])
    requires GetScheme(pre).Some?
    ensures var rest0 := GetScheme(pre).value.1;
      forall j :: 0 <= j < |rest0| ==> rest0[j] != '#' && !IsCtl(rest0[j])
  {
    var (sc, rest0) := GetScheme(pre).value;
    forall j | 0 <= j < |rest0|
      ensures rest0[j] != '#' && !IsCtl(rest0[j])
    {
      if sc != "" {
        assert rest0[j] == pre[|sc| + 1 + j];
      } else {
        assert rest0[j] == pre[j];
      }
    }
  }


  /** Userinfo url.Parse accepts holds no '/', '?', '#' and no control character. */
  lemma UserinfoChars(s: string)
    requires ValidUserinfo(s)
    ensures forall j :: 0 <= j < |s| ==> s[j] != '/' && s[j] != '?' && s[j] != '#' && !IsCtl(s[j])
  {
    forall j | 0 <= j < |s|
      ensures s[j] != '/' && s[j] != '?' && s[j] != '#' && !IsCtl(s[j])
    {
      assert IsAlnum(s[j]) || s[j] in "-._:~!$&'()*+,;=%@";
    }
  }

  /** The userinfo and '@' and a host url.Parse accepts: no '/', '?', '#' and no control character. */
  lemma AuthorityChars(user: Option<string>, host: string)
    requires HostValid(host)
    requires user.Some? ==> ValidUserinfo(user.value)
    ensures var a := UserMark(user) + host;
      forall j :: 0 <= j < |a| ==> a[j] != '/' && a[j] != '?' && a[j] != '#' && !IsCtl(a[j])
  {
    HostValidChars(host);
    var a := UserMark(user) + host;
    if user.Some? {
      UserinfoChars(user.value);
      forall j | 0 <= j < |a|
        ensures a[j] != '/' && a[j] != '?' && a[j] != '#' && !IsCtl(a[j])
      {
        if j < |user.value| {
          assert a[j] == user.value[j];
        } else if j > |user.value| {
          assert a[j] == host[j - |user.value| - 1];
        }
      }
    } else {
      assert a == host;
    }
  }

  /** An opaque URL is written scheme:opaque and parses back to the same. */
  lemma ReparseOpaque(u: Url)
    requires WellFormed(u) && u.opaqueText != ""
    ensures Parse(RootString(u)) == Some(Url(u.scheme, u.opaqueText, None, "", false, "", u.forceQuery, "", ""))
  {
    assert RootString(u) == u.scheme + ":" + u.opaqueText + QueryMark(u.forceQuery);
    ParseOpaque(u.scheme, u.opaqueText, u.forceQuery);
  }

  /** A URL written with "//" parses back to its scheme, userinfo and host. */
  lemma ReparseAuthority(u: Url)
    requires WellFormed(u) && u.opaqueText == ""
    requires (u.scheme != "" || u.host != "" || u.user.Some?) && !(u.omitHost && u.host == "" && u.user.None?)
    ensures Parse(RootString(u)) == Some(Url(u.scheme, "", u.user, u.host, false, "/", u.forceQuery, "", ""))
  {
    assert RootPath(u) == "/";
    RootStringAuthority(u);
    ParseRootAuthority(u.scheme, u.user, u.host, u.forceQuery);
  }

  /** The text "scheme://userinfo@host/" that String writes parses back to those parts. */
  lemma ParseRootAuthority(scheme: string, user: Option<string>, host: string, fq: bool)
    requires scheme == "" || (ValidScheme(scheme) && ToLower(scheme) == scheme)
    requires user.Some? ==> ValidUserinfo(user.value) && EscapesValid(user.value)
    requires HostValid(host)
    requires scheme != "" || host != "" || user.Some?
    ensures Parse(SchemeMark(scheme) + "//" + (UserMark(user) + host) + "/" + QueryMark(fq))
      == Some(Url(scheme, "", user, host, false, "/", fq, "", ""))
  {
    var auth := UserMark(user) + host;
    AuthorityChars(user, host);
    ParseWithAuthority(scheme, auth, "/", fq);
    ParseAuthorityOf(user, host);
    assert EscapesValid("/"[1..]);
  }


  /** A URL with its empty authority left out is written scheme:/ and parses back to the same. */
  lemma ReparseOmitted(u: Url)
    requires WellFormed(u) && u.opaqueText == "" && u.scheme != "" && u.omitHost && u.host == "" && u.user.None?
    ensures Parse(RootString(u)) == Some(Url(u.scheme, "", None, "", true, "/", u.forceQuery, "", ""))
  {
    assert RootString(u) == u.scheme + ":/" + QueryMark(u.forceQuery);
    ParseOmitted(u.scheme, u.forceQuery);
  }

  /** A URL with neither scheme, userinfo nor host is written as its root path and parses back to it. */
  lemma ReparseRelative(u: Url)
    requires WellFormed(u) && u.opaqueText == "" && u.scheme == "" && u.host == "" && u.user.None?
    ensures Parse(RootString(u)) == Some(Url("", "", None, "", false, RootPath(u), u.forceQuery, "", ""))
  {
    var p := RootPath(u);
    assert RootString(u) == p + QueryMark(u.forceQuery);
    RootPathRelative(p, u.forceQuery);
    ParseRelative(p, u.forceQuery);
  }

  /** Each root path RootString can write is read back by url.Parse as a relative path with no scheme. */
  lemma RootPathRelative(p: string, fq: bool)
    requires p == "/" || p == "%2F" || p == "%2f"
    ensures NoBreak(p) && EscapesValid(p)
    ensures GetScheme(p + QueryMark(fq)) == Some(("", p + QueryMark(fq)))
    ensures !HasPrefix(p, "//") || HasPrefix(p, "///")
    ensures !HasPrefix(p, "/") ==> ':' !in p[..IndexOfAny(p, {'/'})]
  {
    RootPathClean(p);
    RootPathNoScheme(p, fq);
    RootPathSegment(p);
  }

  lemma RootPathClean(p: string)
    requires p == "/" || p == "%2F" || p == "%2f"
    ensures NoBreak(p) && EscapesValid(p)
  {
  }

  lemma RootPathNoScheme(p: string, fq: bool)
    requires p == "/" || p == "%2F" || p == "%2f"
    ensures GetScheme(p + QueryMark(fq)) == Some(("", p + QueryMark(fq)))
  {
    assert !SchemeChar((p + QueryMark(fq))[0]);
  }

  lemma RootPathSegment(p: string)
    requires p == "/" || p == "%2F" || p == "%2f"
    ensures !HasPrefix(p, "//") || HasPrefix(p, "///")
    ensures !HasPrefix(p, "/") ==> ':' !in p[..IndexOfAny(p, {'/'})]
  {
    assert !HasPrefix(p, "//") by {
      if |p| >= 2 {
        assert p[..2][0] == '%';
      }
    }
    if p != "/" {
      IndexOfAnyAt(p, {'/'}, 3);
      assert p[..3] == p;
    }
  }



  /** What String writes of a well-formed URL parses back to the same scheme and is written the same way again. */
  lemma RootStringReparses(u: Url)
    requires WellFormed(u)
    ensures Parse(RootString(u)).Some?
    ensures Parse(RootString(u)).value.scheme == u.scheme
    ensures RootString(Parse(RootString(u)).value) == RootString(u)
  {
    if u.opaqueText != "" {
      ReparseOpaque(u);
    } else if (u.scheme != "" || u.host != "" || u.user.Some?) && !(u.omitHost && u.host == "" && u.user.None?) {
      ReparseAuthority(u);
    } else if u.scheme != "" {
      ReparseOmitted(u);
    } else {
      ReparseRelative(u);
    }
  }

  /** The UI scheme of a valid lower-case scheme is again valid and lower-case, and maps to itself. */
  lemma UiSchemeFixed(scheme: string)
    requires ValidScheme(scheme) && ToLower(scheme) == scheme
    ensures ValidScheme(UiScheme(scheme)) && ToLower(UiScheme(scheme)) == UiScheme(scheme)
    ensures UiScheme(UiScheme(scheme)) == UiScheme(scheme)
  {
    if ToLower(scheme) == "ws" {
      HttpsFixed("http");
    } else if ToLower(scheme) == "wss" {
      HttpsFixed("https");
    }
  }

  lemma HttpsFixed(sc: string)
    requires sc == "http" || sc == "https"
    ensures ValidScheme(sc) && ToLower(sc) == sc && UiScheme(sc) == sc
  {
    ToLowerNoUpper(sc);
  }

  /**
   * Deriving twice is deriving once: the derived address parses back to a
   * URL under a scheme that maps to itself and is written the same way.
   */
  lemma DeriveUIURLIdempotent(ws: string)
    ensures DeriveUIURL(DeriveUIURL(ws)) == DeriveUIURL(ws)
  {
    match Parse(ws)
    case None =>
    case Some(u) =>
      var v := u.(scheme := UiScheme(u.scheme));
      ParsedWellFormed(ws);
      if u.scheme != "" {
        UiSchemeFixed(u.scheme);
      }
      assert WellFormed(v);
      RootStringReparses(v);
      var w := Parse(RootString(v)).value;
      assert w.(scheme := UiScheme(w.scheme)) == w;
  }

  /**
   * scheme://host followed by a path, and a lone '?' when fq holds, parses to that scheme, that host, that path
   * and that flag, for a valid host and a path with valid escapes.
   */
  lemma ParseSchemeHost(scheme: string, host: string, path: string, fq: bool)
    requires ValidScheme(scheme) && ToLower(scheme) == scheme
    requires HostValid(host)
    requires path == "" || path[0] == '/'
    requires NoBreak(path) && EscapesValid(path)
    ensures Parse(scheme + "://" + host + path + QueryMark(fq)) == Some(Url(scheme, "", None, host, false, path, fq, "", ""))
  {
    HostValidChars(host);
    SchemeSlashes(scheme);
    ParseWithAuthority(scheme, host, path, fq);
    ParseAuthorityHost(host);
  }

  /** A scheme followed by "://" is its scheme mark followed by "//". */
  lemma SchemeSlashes(scheme: string)
    requires scheme != ""
    ensures scheme + "://" == SchemeMark(scheme) + "//"
  {
  }

  /** ws://host/path parses to scheme ws, that host and that path, for a valid host and a path with valid escapes. */
  lemma ParseWs(host: string, path: string)
    requires HostValid(host)
    requires path == "" || path[0] == '/'
    requires NoBreak(path) && EscapesValid(path)
    ensures Parse("ws://" + host + path) == Some(Url("ws", "", None, host, false, path, false, "", ""))
  {
    WsIsValidScheme();
    ParseSchemeHost("ws", host, path, false);
    assert "ws://" + host + path + QueryMark(false) == "ws://" + host + path;
  }

  /** A ws endpoint url.Parse accepts is opened as http on the same host, at the root. */
  lemma WsEndpointBecomesHttp(host: string, path: string)
    requires HostValid(host)
    requires path == "" || path[0] == '/'
    requires NoBreak(path) && EscapesValid(path)
    ensures DeriveUIURL("ws://" + host + path) == "http://" + host + "/"
  {
    ParseWs(host, path);
    WsBecomesHttp();
    RootStringHttp(host, path);
  }

  /** An http URL with a host and no userinfo is written http://host/. */
  lemma RootStringHttp(host: string, path: string)
    requires path == "" || path[0] == '/'
    ensures RootString(Url("http", "", None, host, false, path, false, "", "")) == "http://" + host + "/"
  {
    RootStringOfHost("http", host, path);
    assert "http" + "://" == "http://";
  }

  lemma WsBecomesHttp()
    ensures UiScheme("ws") == "http"
  {
    ToLowerNoUpper("ws");
  }

  /** A URL with a scheme and a host, and no userinfo, is written scheme://host/. */
  lemma RootStringOfHost(scheme: string, host: string, path: string)
    requires scheme != "" && (path == "" || path[0] == '/')
    ensures RootString(Url(scheme, "", None, host, false, path, false, "", "")) == scheme + "://" + host + "/"
  {
  }

  /** A relative endpoint keeps no host: the UI address is the bare root path. */
  lemma RelativeEndpoint(path: string)
    requires NoBreak(path) && EscapesValid(path)
    requires GetScheme(path) == Some(("", path))
    requires !HasPrefix(path, "//") || HasPrefix(path, "///")
    requires !HasPrefix(path, "/") ==> ':' !in path[..IndexOfAny(path, {'/'})]
    requires path != "%2F" && path != "%2f"
    ensures DeriveUIURL(path) == "/"
  {
    assert path + QueryMark(false) == path;
    ParseRelative(path, false);
  }

  /** An endpoint whose authority url.Parse refuses comes back unchanged. */
  lemma RefusedAuthorityKept(auth: string, path: string)
    requires forall j :: 0 <= j < |auth| ==> auth[j] != '/' && auth[j] != '?' && auth[j] != '#' && !IsCtl(auth[j])
    requires ParseAuthority(auth).None?
    requires path == "" || path[0] == '/'
    requires NoBreak(path)
    ensures DeriveUIURL("ws://" + auth + path) == "ws://" + auth + path
  {
    WsIsValidScheme();
    assert "ws://" + auth + path == SchemeMark("ws") + "//" + auth + path + QueryMark(false);
    ParseWithAuthority("ws", auth, path, false);
  }

  lemma WsIsValidScheme()
    ensures ValidScheme("ws") && ToLower("ws") == "ws" && SchemeMark("ws") == "ws:" && "ws" + "://" == "ws://"
  {
    ToLowerNoUpper("ws");
  }

  /** A port that is not a number is refused: "h:abc" is no host. */
  lemma NonNumericPortRefused()
    ensures ParseAuthority("h:abc").None?
  {
    var h := "h:abc";
    LastIndexOfAt(h, ':', 1);
    assert h[1..] == ":abc";
    assert !ValidOptionalPort(h[1..]);
    ParseAuthorityHost(h);
  }

  /** A host escape that is not two hex digits is refused: "h%zz" is no host. */
  lemma BadHostEscapeRefused()
    ensures ParseAuthority("h%zz").None?
  {
    var h := "h%zz";
    assert h[1] == '%' && !IsHex(h[2]);
    ParseAuthorityHost(h);
  }

  /** A host escape of an ASCII byte other than "%25" is refused: "h%41" is no host. */
  lemma AsciiHostEscapeRefused()
    ensures ParseAuthority("h%41").None?
  {
    var h := "h%41";
    assert h[1] == '%' && !IsHighHex(h[2]) && h[2] != '2';
    ParseAuthorityHost(h);
  }

  /** A lone trailing '?' after a ws endpoint survives as a forced empty query in the UI address. */
  lemma ForcedQueryKept(host: string, path: string)
    requires HostValid(host)
    requires path == "" || path[0] == '/'
    requires NoBreak(path) && EscapesValid(path)
    ensures DeriveUIURL("ws://" + host + path + "?") == "http://" + host + "/?"
  {
    WsIsValidScheme();
    ParseSchemeHost("ws", host, path, true);
    assert QueryMark(true) == "?";
    WsBecomesHttp();
    RootStringForced(host, path);
  }

  /** An http URL with a host and a forced empty query is written http://host/?. */
  lemma RootStringForced(host: string, path: string)
    requires path == "" || path[0] == '/'
    ensures RootString(Url("http", "", None, host, false, path, true, "", "")) == "http://" + host + "/?"
  {
    assert "http" + ":" + "//" == "http://";
  }

  // ---- stop-ui and opening the browser ----

  /** The address stop-ui posts to. */
  function ShutdownURL(addr: string): (u: string)
    ensures |u| == |addr| + 16 && u[..7] == "http://" && u[7..|u| - 9] == addr && u[|u| - 9..] == "/shutdown"
  {
    "http://" + addr + "/shutdown"
  }

  /**
   * stopUI: an unreachable agent is not an error (it may already be
   * stopped); a 2xx status (202 included) is success; any other status is
   * an error naming it. `status` is None when the POST itself failed.
   */
  function StopUI(status: Option<nat>): (r: Option<string>)
    ensures status.None? ==> r.None?
    ensures status.Some? && r.Some? ==> r.value == "stop-ui failed: HTTP " + IntToString(status.value)
  {
    match status
    case None => None
    case Some(code) => if code / 100 == 2 || code == 202 then None else Some("stop-ui failed: HTTP " + IntToString(code))
  }

  /** stop-ui succeeds against a reachable agent exactly for the 2xx statuses; the separate 202 test adds nothing. */
  lemma StopUISucceedsIff2xx(code: nat)
    ensures StopUI(Some(code)).None? <==> 200 <= code < 300
  {
  }

  /**
   * openBrowserSafe: an empty URL is an error and nothing is opened;
   * otherwise the browser is asked and its error, if any, is returned.
   * The result is (error, whether the browser was asked).
   */
  function OpenBrowserSafe(u: string, browserErr: Option<string>): (r: (Option<string>, bool))
    ensures u == "" ==> r == (Some("no URL to open"), false)
    ensures u != "" ==> r == (browserErr, true)
  {
    if u == "" then (Some("no URL to open"), false) else (browserErr, true)
  }

  // ---- runUI ----

  /** What runUI set in motion. */
  datatype UiAction =
    | BrowserOpened(url: string)
    | AgentSpawned(exe: string, args: seq<string>)
    | AgentStarted(addr: string, endpoint: string, apiKey: string)

  /** The URL --open opens: --open-url when given, otherwise the one derived from the endpoint. */
  function OpenTarget(openURL: string, endpoint: string): (u: string)
    ensures openURL != "" ==> u == openURL
    ensures openURL == "" ==> u == DeriveUIURL(endpoint)
  {
    if openURL != "" then openURL else DeriveUIURL(endpoint)
  }

  /** The flag variables of `favus ui`, which runUI completes from the environment. */
  class UiCommand {
    var flags: UiFlags

    constructor (flags: UiFlags)
      ensures this.flags == flags
    {
      this.flags := flags;
    }

    /**
     * runUI up to the point where it waits for a signal. The endpoint and API
     * key are completed first. An agent already listening at the address is
     * reused (only the browser may be opened). Without --foreground the
     * command relaunches itself in foreground mode in the background and
     * returns (a start that fails is the error and launches nothing); with
     * it, the agent is started in this process and the
     * browser opened on request.
     */
    method RunUI(envEndpoint: string, envAPIKey: string, running: bool, exe: Result<string, string>,
                 spawnErr: Option<string>, startErr: Option<string>) returns (err: Option<string>, actions: seq<UiAction>)
      modifies this
      ensures flags == old(flags).(endpoint := Endpoint(old(flags).endpoint, envEndpoint), apiKey := APIKey(old(flags).apiKey, envAPIKey))
      ensures running ==> err.None?
      ensures running ==> actions == (if flags.open then [BrowserOpened(OpenTarget(flags.openURL, flags.endpoint))] else [])
      ensures !running && !flags.foreground && exe.Err? ==> err == Some("resolve executable: " + exe.error) && actions == []
      ensures !running && !flags.foreground && exe.Ok? && spawnErr.Some? ==>
                err == Some("failed to start UI agent in background: " + spawnErr.value) && actions == []
      ensures !running && !flags.foreground && exe.Ok? && spawnErr.None? ==>
                && err.None?
                && |actions| == 1 && actions[0].AgentSpawned? && actions[0].exe == exe.value
                && ParseCommand(actions[0].args) == Some(flags.(foreground := true))
      ensures !running && flags.foreground && startErr.Some? ==> err == Some("failed to start UI agent: " + startErr.value) && actions == []
      ensures !running && flags.foreground && startErr.None? ==>
                && err.None?
                && actions == [AgentStarted(flags.addr, flags.endpoint, flags.apiKey)]
                              + (if flags.open then [BrowserOpened(OpenTarget(flags.openURL, flags.endpoint))] else [])
    {
      flags := flags.(endpoint := Endpoint(flags.endpoint, envEndpoint), apiKey := APIKey(flags.apiKey, envAPIKey));
      actions := [];
      err := None;
      if running {
        if flags.open {
          actions := [BrowserOpened(OpenTarget(flags.openURL, flags.endpoint))];
        }
        return;
      }
      if !flags.foreground {
        var args := BackgroundArgs(flags.addr, flags.endpoint, flags.apiKey, flags.open, flags.openURL);
        if exe.Err? {
          err := Some("resolve executable: " + exe.error);
          return;
        }
        if spawnErr.Some? {
          err := Some("failed to start UI agent in background: " + spawnErr.value);
          return;
        }
        actions := [AgentSpawned(exe.value, args)];
        return;
      }
      if startErr.Some? {
        err := Some("failed to start UI agent: " + startErr.value);
        return;
      }
      actions := [AgentStarted(flags.addr, flags.endpoint, flags.apiKey)];
      if flags.open {
        actions := actions + [BrowserOpened(OpenTarget(flags.openURL, flags.endpoint))];
      }
    }
  }
}
