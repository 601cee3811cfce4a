/**
 * The tweet-URL check of the home page: the JavaScript regular expression
 * `^https?:\/\/(www\.)?(twitter|x)\.com\/.+\/status\/[0-9]+` applied with `test`
 * (anchored at the start only, no flags).
 */
module UrlValidator {
  import opened Wrappers

  /** The characters JavaScript's `.` does not match when the `s` flag is absent. */
  predicate IsLineTerminator(c: char) {
    c == '\n' || c == '\r' || c == '\U{2028}' || c == '\U{2029}'
  }

  /** `[0-9]`: ASCII digits only. */
  predicate IsDigit(c: char) {
    '0' <= c <= '9'
  }

  /** `https?:\/\/` */
  predicate IsScheme(s: string) {
    s == "http://" || s == "https://"
  }

  /** `(www\.)?` */
  predicate IsWww(s: string) {
    s == "" || s == "www."
  }

  /** `(twitter|x)` */
  predicate IsHost(s: string) {
    s == "twitter" || s == "x"
  }

  /** `.+`: at least one character, none of them a line terminator. */
  predicate IsPath(s: string) {
    |s| > 0 && forall i :: 0 <= i < |s| ==> !IsLineTerminator(s[i])
  }

  /** `[0-9]+` */
  predicate IsDigits(s: string) {
    |s| > 0 && forall i :: 0 <= i < |s| ==> IsDigit(s[i])
  }

  /** The anchored part `https?:\/\/(www\.)?(twitter|x)\.com\/` for one choice of its alternatives. */
  function HostPrefix(scheme: string, www: string, host: string): string {
    scheme + www + host + ".com/"
  }

  /** A string cut into the pieces the expression matches, followed by the unconstrained rest. */
  function Split(scheme: string, www: string, host: string, path: string, digits: string, rest: string): string {
    HostPrefix(scheme, www, host) + (path + ("/status/" + (digits + rest)))
  }

  /**
   * What `test` answers: some split of `url` matches the expression piece by piece.
   * Anything may follow the digits, since there is no end anchor. The shortest accepted URL,
   * `http://x.com/a/status/1`, has 23 characters.
   */
  ghost predicate Matches(url: string): (accepted: bool)
    ensures accepted ==> 23 <= |url|
  {
    exists scheme, www, host, path, digits, rest ::
      IsScheme(scheme) && IsWww(www) && IsHost(host) && IsPath(path) && IsDigits(digits) &&
      Split(scheme, www, host, path, digits, rest) == url
  }

  /** The eight strings the anchored part can match, written out. */
  const KnownPrefixes: seq<string> := [
    "http://twitter.com/", "http://x.com/", "http://www.twitter.com/", "http://www.x.com/",
    "https://twitter.com/", "https://x.com/", "https://www.twitter.com/", "https://www.x.com/"
  ]

  /** `https?:\/\/` at the start of `url`: the length matched, or 0. */
  function SchemeLength(url: string): nat {
    if "https://" <= url then 8 else if "http://" <= url then 7 else 0
  }

  /** `(www\.)?` at the start of `t`: the length matched (the option is greedy). */
  function WwwLength(t: string): nat {
    if "www." <= t then 4 else 0
  }

  /** `(twitter|x)\.com\/` at the start of `t`: the length matched, or 0. */
  function HostLength(t: string): nat {
    if "twitter.com/" <= t then 12 else if "x.com/" <= t then 6 else 0
  }

  /**
   * Length of the anchored part `https?:\/\/(www\.)?(twitter|x)\.com\/` at the start of `url`.
   * The alternatives exclude one another, so at most one choice fits and no backtracking is needed.
   */
  function HostPrefixLength(url: string): (r: Option<nat>)
    ensures r.Some? ==> r.value <= |url|
  {
    var s := SchemeLength(url);
    if s == 0 then None
    else
      var w := s + WwwLength(url[s..]);
      var h := HostLength(url[w..]);
      if h == 0 then None else Some(w + h)
  }

  lemma SchemeLengthSound(url: string)
    requires SchemeLength(url) != 0
    ensures SchemeLength(url) <= |url| && IsScheme(url[..SchemeLength(url)])
  {
    if SchemeLength(url) == 8 { LiteralAt(url, 0, "https://"); } else { LiteralAt(url, 0, "http://"); }
  }

  lemma WwwLengthSound(url: string, s: nat)
    requires s <= |url|
    ensures s + WwwLength(url[s..]) <= |url| && IsWww(url[s..s + WwwLength(url[s..])])
  {
    if WwwLength(url[s..]) == 4 { LiteralAt(url, s, "www."); }
  }

  lemma HostLengthSound(url: string, w: nat)
    requires w <= |url| && HostLength(url[w..]) != 0
    ensures var h := w + HostLength(url[w..]);
      h <= |url| && IsHost(url[w..h - 5]) && url[h - 5..h] == ".com/"
  {
    if HostLength(url[w..]) == 12 {
      LiteralAt(url, w, "twitter.com/");
      assert url[w..w + 12][..7] == url[w..w + 7];
      assert url[w..w + 12][7..] == url[w + 7..w + 12];
    } else {
      LiteralAt(url, w, "x.com/");
      assert url[w..w + 6][..1] == url[w..w + 1];
      assert url[w..w + 6][1..] == url[w + 1..w + 6];
    }
  }

  lemma SchemeLengthComplete(scheme: string, t: string)
    requires IsScheme(scheme)
    ensures SchemeLength(scheme + t) == |scheme|
  {
    var u := scheme + t;
    assert u[..|scheme|] == scheme;
    // "http://" differs from "https://" at index 4
    if scheme == "http://" { assert u[4] == ':'; }
  }

  lemma WwwLengthComplete(www: string, host: string, t: string)
    requires IsWww(www) && IsHost(host)
    ensures WwwLength(www + (host + t)) == |www|
  {
    var u := www + (host + t);
    if www == "" {
      // the host starts with 't' or 'x', never 'w'
      assert u[0] == host[0];
    } else {
      assert u[..4] == www;
    }
  }

  lemma HostLengthComplete(host: string, t: string)
    requires IsHost(host)
    ensures HostLength(host + (".com/" + t)) == |host| + 5
  {
    var u := host + (".com/" + t);
    assert u[..|host| + 5] == host + ".com/";
    if host == "x" { assert u[0] == 'x'; }
  }

  /** Adjacent slices join up. */
  lemma SlicesJoin(u: string, a: nat, b: nat, c: nat)
    requires a <= b <= c <= |u|
    ensures u[a..b] + u[b..c] == u[a..c]
  {
  }

  /** A literal that `u[i..]` starts with occupies `u[i..i + |lit|]`. */
  lemma LiteralAt(u: string, i: nat, lit: string)
    requires i <= |u| && lit <= u[i..]
    ensures i + |lit| <= |u| && u[i..i + |lit|] == lit
  {
    assert u[i..][..|lit|] == lit;
  }

  /** When `HostPrefixLength` answers, `url` really starts with one choice of the anchored part of that length. */
  lemma HostPrefixLengthSound(url: string) returns (scheme: string, www: string, host: string)
    requires HostPrefixLength(url).Some?
    ensures IsScheme(scheme) && IsWww(www) && IsHost(host)
    ensures HostPrefixLength(url).value <= |url|
    ensures url[..HostPrefixLength(url).value] == HostPrefix(scheme, www, host)
  {
    var s := SchemeLength(url);
    SchemeLengthSound(url);
    scheme := url[..s];
    var w := s + WwwLength(url[s..]);
    WwwLengthSound(url, s);
    www := url[s..w];
    var h := w + HostLength(url[w..]);
    HostLengthSound(url, w);
    host := url[w..h - 5];
    SlicesJoin(url, 0, s, w);
    SlicesJoin(url, 0, w, h - 5);
    SlicesJoin(url, 0, h - 5, h);
  }

  /** The anchored part followed by `t`, regrouped from the right. */
  lemma HostPrefixRegroup(scheme: string, www: string, host: string, t: string)
    ensures HostPrefix(scheme, www, host) + t == scheme + (www + (host + (".com/" + t)))
  {
  }

  /** Every choice of the anchored part that `url` starts with is the one `HostPrefixLength` finds. */
  lemma HostPrefixLengthComplete(scheme: string, www: string, host: string, t: string)
    requires IsScheme(scheme) && IsWww(www) && IsHost(host)
    ensures HostPrefixLength(HostPrefix(scheme, www, host) + t) == Some(|HostPrefix(scheme, www, host)|)
  {
    SchemeLengthComplete(scheme, www + (host + (".com/" + t)));
    WwwLengthComplete(www, host, ".com/" + t);
    HostLengthComplete(host, t);
    HostPrefixLengthOfParts(scheme, www, host + (".com/" + t), |host| + 5);
    HostPrefixRegroup(scheme, www, host, t);
  }

  /** `HostPrefixLength` from the lengths its three parts match. */
  lemma HostPrefixLengthOfParts(a: string, b: string, c: string, h: nat)
    requires |a| != 0 && SchemeLength(a + (b + c)) == |a|
    requires WwwLength(b + c) == |b|
    requires h != 0 && HostLength(c) == h
    ensures HostPrefixLength(a + (b + c)) == Some(|a| + |b| + h)
  {
    var url := a + (b + c);
    assert url[|a|..] == b + c;
    assert url[|a| + |b|..] == c;
  }

  /** No line terminator in `url[lo..hi]`. */
  predicate OnOneLine(url: string, lo: nat, hi: nat)
    requires lo <= hi <= |url|
  {
    forall i :: lo <= i < hi ==> !IsLineTerminator(url[i])
  }

  /** `\/status\/[0-9]` at position `k`. */
  predicate StatusMarkerAt(url: string, k: nat) {
    k + 9 <= |url| && url[k..k + 8] == "/status/" && IsDigit(url[k + 8])
  }

  /**
   * After an anchored part of length `n`, a non-empty single-line path runs up to `k`,
   * where `/status/` and a digit follow.
   */
  predicate StatusAt(url: string, n: nat, k: nat) {
    n < k && StatusMarkerAt(url, k) && OnOneLine(url, n, k)
  }

  /** A non-empty single-line path, `/status/` and a digit after any `p` are found at the end of the path. */
  lemma StatusAfterPath(p: string, path: string, digits: string, rest: string)
    requires IsPath(path) && IsDigits(digits)
    ensures StatusAt(p + (path + ("/status/" + (digits + rest))), |p|, |p| + |path|)
  {
    var tail := "/status/" + (digits + rest);
    var url := p + (path + tail);
    var n, k := |p|, |p| + |path|;
    assert url[n..] == path + tail;
    assert url[k..] == tail;
    assert url[k..k + 8] == url[k..][..8] == "/status/";
    assert url[k + 8] == tail[8] == digits[0];
    assert forall i :: n <= i < k ==> url[i] == path[i - n];
  }

  /** A split that matches piece by piece is found by the index-level check. */
  lemma SplitIsScanned(scheme: string, www: string, host: string, path: string, digits: string, rest: string)
    requires IsScheme(scheme) && IsWww(www) && IsHost(host) && IsPath(path) && IsDigits(digits)
    ensures var url, n := Split(scheme, www, host, path, digits, rest), |HostPrefix(scheme, www, host)|;
      HostPrefixLength(url) == Some(n) && StatusAt(url, n, n + |path|)
  {
    HostPrefixLengthComplete(scheme, www, host, path + ("/status/" + (digits + rest)));
    StatusAfterPath(HostPrefix(scheme, www, host), path, digits, rest);
  }

  /** `url` cut at `n`, `k`, `k + 8` and `k + 9` is `url` again. */
  lemma CutFive(url: string, n: nat, k: nat)
    requires n <= k && k + 9 <= |url|
    ensures url == url[..n] + (url[n..k] + (url[k..k + 8] + (url[k + 8..k + 9] + url[k + 9..])))
  {
    SlicesJoin(url, k + 8, k + 9, |url|);
    SlicesJoin(url, k, k + 8, |url|);
    SlicesJoin(url, n, k, |url|);
    SlicesJoin(url, 0, n, |url|);
  }

  /** An index-level hit after a known anchored part gives a split that matches piece by piece. */
  lemma ScanIsSplit(url: string, scheme: string, www: string, host: string, k: nat)
    requires IsScheme(scheme) && IsWww(www) && IsHost(host)
    requires |HostPrefix(scheme, www, host)| <= |url| && url[..|HostPrefix(scheme, www, host)|] == HostPrefix(scheme, www, host)
    requires StatusAt(url, |HostPrefix(scheme, www, host)|, k)
    ensures Matches(url)
  {
    var n := |HostPrefix(scheme, www, host)|;
    var path, digits, rest := url[n..k], url[k + 8..k + 9], url[k + 9..];
    assert IsPath(path);
    assert IsDigits(digits);
    CutFive(url, n, k);
    assert Split(scheme, www, host, path, digits, rest) == url;
  }

  /** The split semantics of the expression is the index semantics the scanner checks. */
  lemma MatchesIff(url: string)
    ensures Matches(url) <==>
      HostPrefixLength(url).Some? && exists k :: StatusAt(url, HostPrefixLength(url).value, k)
  {
    if Matches(url) {
      var scheme, www, host, path, digits, rest :|
        IsScheme(scheme) && IsWww(www) && IsHost(host) && IsPath(path) && IsDigits(digits) &&
        Split(scheme, www, host, path, digits, rest) == url;
      SplitIsScanned(scheme, www, host, path, digits, rest);
    }
    if HostPrefixLength(url).Some? && exists k :: StatusAt(url, HostPrefixLength(url).value, k) {
      var k: nat :| StatusAt(url, HostPrefixLength(url).value, k);
      var scheme, www, host := HostPrefixLengthSound(url);
      ScanIsSplit(url, scheme, www, host, k);
    }
  }

  /**
   * The scanning half of `validateUrl`: tries every end of the path after position `n`
   * and stops at the first line terminator, which no path may contain.
   */
  method ScanForStatus(url: string, n: nat) returns (found: bool)
    requires n <= |url|
    ensures found == exists k :: StatusAt(url, n, k)
  {
    var i := n;
    while i < |url|
      invariant n <= i <= |url|
      invariant OnOneLine(url, n, i)
      invariant forall k :: n < k <= i ==> !StatusAt(url, n, k)
    {
      if IsLineTerminator(url[i]) {
        // every later end of the path would include url[i]
        assert forall k :: i < k ==> !StatusAt(url, n, k);
        return false;
      }
      i := i + 1;
      if StatusMarkerAt(url, i) {
        assert StatusAt(url, n, i);
        return true;
      }
    }
    return false;
  }

  /** `validateUrl`: the anchored part, then the scan for `/status/` and a digit. */
  method ValidateUrl(url: string) returns (ok: bool)
    ensures ok == Matches(url)
  {
    MatchesIff(url);
    var prefix := HostPrefixLength(url);
    if prefix.None? {
      return false;
    }
    ok := ScanForStatus(url, prefix.value);
  }

  /**
   * An accepted URL starts, case-sensitively, with `http://` or `https://`, then with an
   * optional `www.`, then with exactly `twitter.com/` or `x.com/`: one of eight prefixes.
   */
  lemma AcceptedUrlHasKnownPrefix(url: string)
    requires Matches(url)
    ensures "http://" <= url || "https://" <= url
    ensures || "http://twitter.com/" <= url || "http://x.com/" <= url
            || "http://www.twitter.com/" <= url || "http://www.x.com/" <= url
            || "https://twitter.com/" <= url || "https://x.com/" <= url
            || "https://www.twitter.com/" <= url || "https://www.x.com/" <= url
  {
    var scheme, www, host, path, digits, rest :|
      IsScheme(scheme) && IsWww(www) && IsHost(host) && IsPath(path) && IsDigits(digits) &&
      Split(scheme, www, host, path, digits, rest) == url;
    var p := HostPrefix(scheme, www, host);
    assert url == p + (path + ("/status/" + (digits + rest)));
    PrefixOfConcat(p, path + ("/status/" + (digits + rest)));
    KnownPrefixCases(scheme, www, host);
    if scheme == "http://" {
      PrefixOfConcat(scheme, www + host + ".com/");
      PrefixTransitive("http://", p, url);
    } else {
      PrefixOfConcat(scheme, www + host + ".com/");
      PrefixTransitive("https://", p, url);
    }
  }

  lemma PrefixOfConcat(a: string, b: string)
    ensures a <= a + b
  {
  }

  lemma PrefixTransitive(a: string, b: string, c: string)
    requires a <= b && b <= c
    ensures a <= c
  {
  }

  /** The eight choices of the anchored part, written out. */
  lemma KnownPrefixCases(scheme: string, www: string, host: string)
    requires IsScheme(scheme) && IsWww(www) && IsHost(host)
    ensures var p := HostPrefix(scheme, www, host);
            || p == "http://twitter.com/" || p == "http://x.com/"
            || p == "http://www.twitter.com/" || p == "http://www.x.com/"
            || p == "https://twitter.com/" || p == "https://x.com/"
            || p == "https://www.twitter.com/" || p == "https://www.x.com/"
  {
    var p := HostPrefix(scheme, www, host);
    if scheme == "http://" {
      if www == "" {
        if host == "twitter" { assert p == "http://twitter.com/"; } else { assert p == "http://x.com/"; }
      } else {
        if host == "twitter" { assert p == "http://www.twitter.com/"; } else { assert p == "http://www.x.com/"; }
      }
    } else {
      if www == "" {
        if host == "twitter" { assert p == "https://twitter.com/"; } else { assert p == "https://x.com/"; }
      } else {
        if host == "twitter" { assert p == "https://www.twitter.com/"; } else { assert p == "https://www.x.com/"; }
      }
    }
  }

  /** No end anchor: whatever follows an accepted URL, it stays accepted. */
  lemma AcceptedUrlWithSuffix(url: string, suffix: string)
    requires Matches(url)
    ensures Matches(url + suffix)
  {
    var scheme, www, host, path, digits, rest :|
      IsScheme(scheme) && IsWww(www) && IsHost(host) && IsPath(path) && IsDigits(digits) &&
      Split(scheme, www, host, path, digits, rest) == url;
    var p := HostPrefix(scheme, www, host);
    assert p + (path + ("/status/" + (digits + rest))) + suffix
        == p + (path + ("/status/" + (digits + (rest + suffix))));
    assert Split(scheme, www, host, path, digits, rest + suffix) == url + suffix;
  }

  /** After a known anchored part, a URL without a path-status-digit continuation is refused. */
  lemma RejectedWithoutStatus(scheme: string, www: string, host: string, t: string)
    requires IsScheme(scheme) && IsWww(www) && IsHost(host)
    requires forall k :: !StatusAt(HostPrefix(scheme, www, host) + t, |HostPrefix(scheme, www, host)|, k)
    ensures !Matches(HostPrefix(scheme, www, host) + t)
  {
    MatchesIff(HostPrefix(scheme, www, host) + t);
    HostPrefixLengthComplete(scheme, www, host, t);
  }

  /** The URL shape the page asks for is accepted. */
  lemma ExampleUrlAccepted()
    ensures Matches("https://x.com/alice/status/12345")
  {
    assert IsPath("alice") && IsDigits("12345");
    assert Split("https://", "", "x", "alice", "12345", "") == "https://x.com/alice/status/12345";
  }

  /** So is its `twitter.com` variant. */
  lemma ExampleTwitterUrlAccepted()
    ensures Matches("https://twitter.com/alice/status/12345")
  {
    assert IsPath("alice") && IsDigits("12345");
    assert Split("https://", "", "twitter", "alice", "12345", "") == "https://twitter.com/alice/status/12345";
  }

  /** And its `www.` variant, over plain `http` too. */
  lemma ExampleWwwUrlAccepted()
    ensures Matches("http://www.x.com/alice/status/12345")
  {
    assert IsPath("alice") && IsDigits("12345");
    assert Split("http://", "www.", "x", "alice", "12345", "") == "http://www.x.com/alice/status/12345";
  }

  /** Anything may follow the first digit of the status number. */
  lemma ExampleQueryAccepted()
    ensures Matches("https://x.com/a/status/1?x=y")
  {
    assert IsPath("a") && IsDigits("1");
    assert Split("https://", "", "x", "a", "1", "?x=y") == "https://x.com/a/status/1?x=y";
  }

  /** The scheme is compared case-sensitively. */
  lemma ExampleUppercaseSchemeRejected()
    ensures !Matches("HTTPS://x.com/alice/status/12345")
  {
    var upper := "HTTPS://x.com/alice/status/12345";
    assert upper[0] == 'H';
    if Matches(upper) {
      AcceptedUrlHasKnownPrefix(upper);
    }
  }

  /** A host that only begins like `x.com` is refused: the host must end at `.com/`. */
  lemma ExampleLookalikeHostRejected()
    ensures !Matches("https://x.com.example/a/status/1")
  {
    var lookalike := "https://x.com.example/a/status/1";
    assert lookalike[4] == 's' && lookalike[8] == 'x' && lookalike[13] == '.';
    if Matches(lookalike) {
      AcceptedUrlHasKnownPrefix(lookalike);
    }
  }

  /** A subdomain other than `www.` is refused. */
  lemma ExampleSubdomainRejected()
    ensures !Matches("https://mobile.x.com/a/status/1")
  {
    var mobile := "https://mobile.x.com/a/status/1";
    assert mobile[4] == 's' && mobile[8] == 'm';
    if Matches(mobile) {
      AcceptedUrlHasKnownPrefix(mobile);
    }
  }

  /**
   * The path before `/status/` must be non-empty and on one line, and a digit must follow:
   * the status marker right after the host, a line break in the path, and a missing digit
   * are all refused.
   */
  lemma ExamplePathsRejected()
    ensures !Matches("https://x.com/status/1")
    ensures !Matches("https://x.com//status/1")
    ensures !Matches("https://x.com/a\n/status/1")
    ensures !Matches("https://x.com/a/status/")
    ensures !Matches("https://x.com/a/status/x")
  {
    var p := HostPrefix("https://", "", "x");
    assert |p| == 14;
    assert p + "status/1" == "https://x.com/status/1";
    RejectedWithoutStatus("https://", "", "x", "status/1");
    assert p + "/status/1" == "https://x.com//status/1";
    RejectedWithoutStatus("https://", "", "x", "/status/1");
    var broken := p + "a\n/status/1";
    assert broken == "https://x.com/a\n/status/1";
    forall k ensures !StatusAt(broken, 14, k) {
      assert broken[15] == '\n';
      if k == 16 { assert !OnOneLine(broken, 14, 16); }
    }
    RejectedWithoutStatus("https://", "", "x", "a\n/status/1");
    assert p + "a/status/" == "https://x.com/a/status/";
    RejectedWithoutStatus("https://", "", "x", "a/status/");
    var letter := p + "a/status/x";
    assert letter == "https://x.com/a/status/x";
    assert letter[23] == 'x';
    RejectedWithoutStatus("https://", "", "x", "a/status/x");
  }
}
