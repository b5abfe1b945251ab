/** The URL helpers: repairing a scheme and encoding spaces, resolving a link against the page it
    was found on, and reading the week number out of a standings link. */
module Urls {
  import opened GoStrings

  // ---------------------------------------------------------------- NormalizeURL

  /** The scheme repair of NormalizeURL: "https:/" or "http:/" missing its second slash gets it. */
  function RepairScheme(url: string): string {
    if HasPrefix(url, "https:/") && !HasPrefix(url, "https://") then "https://" + TrimPrefix(url, "https:/")
    else if HasPrefix(url, "http:/") && !HasPrefix(url, "http://") then "http://" + TrimPrefix(url, "http:/")
    else url
  }

  /** NormalizeURL: the scheme repair, then every space becomes "%20". */
  function NormalizeURL(url: string): (r: string)
    ensures ' ' !in r
  {
    ReplaceAllChar(RepairScheme(url), ' ', "%20")
  }

  /** The scheme cases: a slash-short "https:/" or "http:/" is completed, and a complete
      "https://" or "http://" is kept. */
  lemma NormalizeURLScheme(url: string)
    ensures HasPrefix(url, "https:/") ==> HasPrefix(NormalizeURL(url), "https://")
    ensures HasPrefix(url, "http:/") ==> HasPrefix(NormalizeURL(url), "http://")
  {
    var u := RepairScheme(url);
    if HasPrefix(url, "https:/") {
      assert HasPrefix(u, "https://");
      ReplaceAllCharKeepsPrefix(u, "https://", ' ', "%20");
    }
    if HasPrefix(url, "http:/") {
      assert HasPrefix(u, "http://");
      ReplaceAllCharKeepsPrefix(u, "http://", ' ', "%20");
    }
  }

  /** After the repair, neither repair applies again. */
  lemma RepairSchemeSettled(url: string)
    ensures var u := RepairScheme(url);
      (HasPrefix(u, "https:/") ==> HasPrefix(u, "https://")) &&
      (HasPrefix(u, "http:/") ==> HasPrefix(u, "http://"))
  {
    var u := RepairScheme(url);
    if HasPrefix(url, "https:/") && !HasPrefix(url, "https://") {
      assert HasPrefix(u, "https://");
      assert u[4] == 's';
    } else if HasPrefix(url, "http:/") && !HasPrefix(url, "http://") {
      assert HasPrefix(u, "http://");
      assert u[4] == ':';
    }
  }

  /** A prefix without '%' is found in the normalised URL exactly when it is found in the
      repaired one. */
  lemma EncodingKeepsScheme(u: string, p: string)
    requires '%' !in p && ' ' !in p
    ensures HasPrefix(ReplaceAllChar(u, ' ', "%20"), p) <==> HasPrefix(u, p)
  {
    if HasPrefix(ReplaceAllChar(u, ' ', "%20"), p) {
      ReplaceAllCharPrefixBack(u, p, ' ', "%20");
    }
    if HasPrefix(u, p) {
      ReplaceAllCharKeepsPrefix(u, p, ' ', "%20");
    }
  }

  /** Normalising twice is normalising once. */
  lemma NormalizeURLIdempotent(url: string)
    ensures NormalizeURL(NormalizeURL(url)) == NormalizeURL(url)
  {
    var u := RepairScheme(url);
    var r := NormalizeURL(url);
    RepairSchemeSettled(url);
    EncodingKeepsScheme(u, "https:/");
    EncodingKeepsScheme(u, "https://");
    EncodingKeepsScheme(u, "http:/");
    EncodingKeepsScheme(u, "http://");
    assert RepairScheme(r) == r;
  }

  // ---------------------------------------------------------------- ResolveRelativeURL

  /** The base as ResolveRelativeURL repairs it.  The second and third branches can never be taken:
      reaching them needs a complete scheme, which rules out their own conditions. */
  function FixBase(baseURL: string): string {
    if !HasPrefix(baseURL, "https://") && !HasPrefix(baseURL, "http://") then "https://" + baseURL
    else if HasPrefix(baseURL, "https:/") && !HasPrefix(baseURL, "https://") then "https://" + TrimPrefix(baseURL, "https:/")
    else if HasPrefix(baseURL, "http:/") && !HasPrefix(baseURL, "http://") then "http://" + TrimPrefix(baseURL, "http:/")
    else baseURL
  }

  /** The only repair that happens is prepending "https://" to a base without a scheme; a
      slash-short "https:/" base is not completed but prefixed. */
  lemma FixBaseOnlyPrepends(baseURL: string)
    ensures FixBase(baseURL) ==
      if HasPrefix(baseURL, "https://") || HasPrefix(baseURL, "http://") then baseURL
      else "https://" + baseURL
  {
  }

  /** The directory of a URL: through its last '/' when that is neither first nor last, else the
      URL itself with a '/' added if it lacks one. */
  function BaseDir(b: string): (r: string)
    ensures r != [] && r[|r| - 1] == '/'
    ensures HasPrefix(b + "/", r)
    ensures forall j :: |r| <= j < |b| ==> b[j] != '/'
    ensures LastIndexOfChar(b, '/') > 0 ==> r == b[..LastIndexOfChar(b, '/') + 1]
  {
    var last := LastIndexOfChar(b, '/');
    if last > 0 && last < |b| - 1 then
      assert (b + "/")[..last + 1] == b[..last + 1];
      b[..last + 1]
    else if !HasSuffix(b, "/") then b + "/"
    else
      assert (b + "/")[..|b|] == b;
      b
  }

  /** ResolveRelativeURL: an absolute link is kept; any other is appended to the directory of
      the repaired base. */
  function ResolveRelativeURL(baseURL: string, relativeURL: string): (r: string)
    ensures HasPrefix(relativeURL, "http://") || HasPrefix(relativeURL, "https://") ==> r == relativeURL
    ensures !(HasPrefix(relativeURL, "http://") || HasPrefix(relativeURL, "https://")) ==>
      exists d :: d == BaseDir(FixBase(baseURL)) && r == d + relativeURL && d != [] && d[|d| - 1] == '/'
  {
    if HasPrefix(relativeURL, "http://") || HasPrefix(relativeURL, "https://") then relativeURL
    else BaseDir(FixBase(baseURL)) + relativeURL
  }

  /** A relative link is appended to the repaired base cut just after its last '/': that '/' is
      never the first character, so the branch that appends a '/' is never taken.  The result is
      always an absolute URL. */
  lemma ResolvedCutsAtLastSlash(baseURL: string, relativeURL: string)
    ensures var r := ResolveRelativeURL(baseURL, relativeURL);
      HasPrefix(r, "https://") || HasPrefix(r, "http://")
    ensures !(HasPrefix(relativeURL, "http://") || HasPrefix(relativeURL, "https://")) ==>
      var f := FixBase(baseURL);
      ResolveRelativeURL(baseURL, relativeURL) == f[..LastIndexOfChar(f, '/') + 1] + relativeURL
  {
    var r := ResolveRelativeURL(baseURL, relativeURL);
    if !(HasPrefix(relativeURL, "http://") || HasPrefix(relativeURL, "https://")) {
      var f := FixBase(baseURL);
      FixBaseOnlyPrepends(baseURL);
      assert HasPrefix(f, "https://") || HasPrefix(f, "http://");
      assert f[6] == '/';
      var last := LastIndexOfChar(f, '/');
      assert last >= 6;
      var d := f[..last + 1];
      assert r == d + relativeURL;
      if HasPrefix(f, "https://") {
        assert f[7] == '/';
        assert d[..8] == f[..8];
        assert (d + relativeURL)[..8] == d[..8];
      } else {
        assert d[..7] == f[..7];
        assert (d + relativeURL)[..7] == d[..7];
      }
    }
  }

  /** A base that is only a host loses it: the last '/' is the scheme's, so the link is resolved
      against "https://" alone. */
  lemma HostOnlyBase(host: string, relativeURL: string)
    requires '/' !in host
    requires !(HasPrefix(relativeURL, "http://") || HasPrefix(relativeURL, "https://"))
    ensures ResolveRelativeURL("https://" + host, relativeURL) == "https://" + relativeURL
  {
    var b := "https://" + host;
    assert HasPrefix(b, "https://");
    FixBaseOnlyPrepends(b);
    var last := LastIndexOfChar(b, '/');
    assert b[7] == '/';
    assert last == 7 by {
      forall j | 7 < j < |b| ensures b[j] != '/' {
        assert b[j] == host[j - 8];
      }
    }
    assert b[..8] == "https://";
  }

  // ---------------------------------------------------------------- ExtractWeekNumber

  /** A match of the pattern "Wk" followed by a digit starts at `i`. */
  predicate TagAt(url: string, i: int) {
    0 <= i && i + 3 <= |url| && url[i] == 'W' && url[i + 1] == 'k' && IsDigit(url[i + 2])
  }

  /** The leftmost match starting at or after `from`, or -1. */
  function FindTag(url: string, from: nat): (r: int)
    ensures r == -1 || (from <= r && TagAt(url, r))
    ensures forall i :: from <= i && (r == -1 || i < r) ==> !TagAt(url, i)
    decreases |url| - from
  {
    if from + 3 > |url| then -1
    else if TagAt(url, from) then from
    else FindTag(url, from + 1)
  }

  /** The end of the run of digits that starts at `i`. */
  function DigitRunEnd(url: string, i: nat): (e: nat)
    requires i <= |url|
    ensures i <= e <= |url| && AllDigits(url[i..e])
    ensures e == |url| || !IsDigit(url[e])
    decreases |url| - i
  {
    if i < |url| && IsDigit(url[i]) then
      var e := DigitRunEnd(url, i + 1);
      assert url[i..e] == [url[i]] + url[i + 1..e];
      e
    else i
  }

  /** ExtractWeekNumber: the number after the leftmost "Wk" that a digit follows, or 0. */
  function ExtractWeekNumber(url: string): (r: int)
    ensures r >= 0
    ensures FindTag(url, 0) == -1 ==> r == 0
    ensures FindTag(url, 0) >= 0 ==>
      var t := FindTag(url, 0);
      r == DigitsValue(url[t + 2..DigitRunEnd(url, t + 2)])
  {
    var t := FindTag(url, 0);
    if t < 0 then 0
    else
      match Atoi(url[t + 2..DigitRunEnd(url, t + 2)])
      case Some(v) => v
      case None => 0
  }

  /** The run end is the only place where a run of digits stops. */
  lemma DigitRunEndUnique(url: string, i: nat, e: nat)
    requires i <= e <= |url| && AllDigits(url[i..e]) && (e == |url| || !IsDigit(url[e]))
    ensures DigitRunEnd(url, i) == e
  {
  }

  /** Writing a week number into a link and reading it back gives the number, whatever precedes
      it without a 'W' and whatever follows it without a leading digit. */
  lemma WeekNumberRoundTrip(p: string, n: nat, q: string)
    requires 'W' !in p
    requires q == [] || !IsDigit(q[0])
    ensures ExtractWeekNumber(p + "Wk" + DecimalString(n) + q) == n
  {
    var d := DecimalString(n);
    var url := p + "Wk" + d + q;
    var t := |p|;
    assert url[t] == 'W' && url[t + 1] == 'k' && url[t + 2] == d[0];
    assert TagAt(url, t);
    forall i | 0 <= i < t ensures !TagAt(url, i) {
      assert url[i] == p[i];
      assert p[i] in p;
    }
    assert FindTag(url, 0) == t;
    assert url[t + 2..t + 2 + |d|] == d;
    assert t + 2 + |d| == |url| || url[t + 2 + |d|] == q[0];
    DigitRunEndUnique(url, t + 2, t + 2 + |d|);
    DecimalStringValue(n);
  }

  /** "Wk0" reads as 0, the value that also means "no week in this link". */
  lemma WeekZeroIsNoWeek()
    ensures ExtractWeekNumber("Wk0") == ExtractWeekNumber("") == 0
  {
    WeekNumberRoundTrip("", 0, "");
    assert "" + "Wk" + DecimalString(0) + "" == "Wk0";
  }
}
