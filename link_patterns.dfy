/**
 * The regular expressions of the link reviewer (src/document.py), each
 * written out as explicit predicates and searches over the `href` text.
 * Python's `re` semantics are followed where they matter: `re.match` anchors
 * at the start only, `.` does not match a newline, `$` matches at the end of
 * the text or just before a final newline, a greedy `.*`/`.+` settles on the
 * longest match and a lazy `.+?` on the shortest.
 */
module LinkPatterns {
  import opened Wrappers
  import opened Ascii
  import opened PercentCoding

  // ---------------------------------------------------------------------------
  // Host: (?:[a-z0-9]+\.)?[a-z0-9]+\.[a-z0-9]+  (a prefix match, no end anchor)
  // ---------------------------------------------------------------------------

  /** The length of the leading run of `[a-z0-9]` characters. */
  function AlnumRun(s: string): (n: nat)
    ensures n <= |s|
    ensures forall i :: 0 <= i < n ==> IsAlnum(s[i])
    ensures n < |s| ==> !IsAlnum(s[n])
  {
    if s != [] && IsAlnum(s[0]) then 1 + AlnumRun(s[1..]) else 0
  }

  /** The host check as the reviewer needs it: a word, a dot and one more word character. */
  predicate HostPrefix(s: string) {
    var n := AlnumRun(s);
    0 < n && n + 1 < |s| && s[n] == '.' && IsAlnum(s[n + 1])
  }

  /** `[a-z0-9]+` matches exactly `s[i..j]`. */
  ghost predicate Word(s: string, i: int, j: int) {
    0 <= i < j <= |s| && forall k :: i <= k < j ==> IsAlnum(s[k])
  }

  /** `[a-z0-9]+\.[a-z0-9]+` matches at `i`, its first word ending at `j`. */
  ghost predicate DottedPairAt(s: string, i: int, j: int) {
    Word(s, i, j) && j + 1 < |s| && s[j] == '.' && IsAlnum(s[j + 1])
  }

  /** `[a-z0-9]+\.` (the optional subdomain) ends at `a`, followed by a dotted pair ending its first word at `j`. */
  ghost predicate SubdomainAt(s: string, a: int, j: int) {
    Word(s, 0, a) && a < |s| && s[a] == '.' && DottedPairAt(s, a + 1, j)
  }

  /** The host regular expression, with and without its optional subdomain. */
  ghost predicate HostRegexMatches(s: string) {
    (exists j :: DottedPairAt(s, 0, j)) || (exists a, j :: SubdomainAt(s, a, j))
  }

  lemma DottedPairEndsRun(s: string, j: int)
    requires DottedPairAt(s, 0, j)
    ensures AlnumRun(s) == j
  {
    var n := AlnumRun(s);
    assert !IsAlnum(s[j]);
    assert n <= j;
    assert n < |s|;
    assert !IsAlnum(s[n]);
  }

  /** The optional subdomain never changes whether the host matches. */
  lemma HostPrefixIsRegex(s: string)
    ensures HostPrefix(s) <==> HostRegexMatches(s)
  {
    if HostPrefix(s) {
      assert DottedPairAt(s, 0, AlnumRun(s));
    }
    if exists a, j :: SubdomainAt(s, a, j) {
      var a, j :| SubdomainAt(s, a, j);
      assert DottedPairAt(s, 0, a);
    }
    if exists j :: DottedPairAt(s, 0, j) {
      var j :| DottedPairAt(s, 0, j);
      DottedPairEndsRun(s, j);
    }
  }

  // ---------------------------------------------------------------------------
  // External link: (?:##TrackClick##)?https?://HOST|##.+##$   under re.I
  // ---------------------------------------------------------------------------

  /** `https?://HOST` at the start of `s`, scheme compared case-insensitively. */
  predicate UrlAt(s: string) {
    || (StartsWithFolded(s, "http://") && HostPrefix(s[7..]))
    || (StartsWithFolded(s, "https://") && HostPrefix(s[8..]))
  }

  /** The click-tracking prefix `##TrackClick##`, folded to lower case. */
  const TRACK_CLICK: string := "##trackclick##"

  /** The first alternative: an absolute http(s) URL behind an optional `##TrackClick##`. */
  predicate TrackedUrl(s: string) {
    UrlAt(s) || (StartsWithFolded(s, TRACK_CLICK) && UrlAt(s[|TRACK_CLICK|..]))
  }

  /** The text before the point where `$` matches last: a final newline is not part of it. */
  function BeforeEnd(s: string): (t: string)
    ensures if |s| > 0 && s[|s| - 1] == '\n' then s == t + "\n" else t == s
  {
    if |s| > 0 && s[|s| - 1] == '\n' then s[..|s| - 1] else s
  }

  /** `^##.+##$`: the whole text is one un-substituted `##…##` template variable. */
  predicate WholePlaceholder(s: string) {
    var t := BeforeEnd(s);
    |t| >= 5 && t[0] == '#' && t[1] == '#' && t[|t| - 2] == '#' && t[|t| - 1] == '#' && '\n' !in t[2..|t| - 2]
  }

  /** The `href` test of `_is_external_link`. */
  predicate IsExternalHref(h: string) {
    TrackedUrl(h) || WholePlaceholder(h)
  }

  lemma PlaceholderShape(m: string, tail: string)
    requires |m| >= 1 && '\n' !in m
    requires tail == "" || tail == "\n"
    ensures WholePlaceholder("##" + m + "##" + tail)
  {
    var s := "##" + m + "##" + tail;
    assert BeforeEnd(s) == "##" + m + "##";
    assert ("##" + m + "##")[2..|m| + 2] == m;
  }

  /** Conversely, every whole placeholder is `##m##` with a non-empty, newline-free `m`, then at most one newline. */
  lemma PlaceholderParts(h: string) returns (m: string, tail: string)
    requires WholePlaceholder(h)
    ensures |m| >= 1 && '\n' !in m && (tail == "" || tail == "\n")
    ensures h == "##" + m + "##" + tail
  {
    var t := BeforeEnd(h);
    m := t[2..|t| - 2];
    tail := if t == h then "" else "\n";
    assert t == "##" + m + "##";
  }

  lemma FoldedAt(h: string, p: string, k: int)
    requires StartsWithFolded(h, p) && 0 <= k < |p|
    ensures LowerChar(h[k]) == p[k]
  {
    assert Lower(h[..|p|])[k] == LowerChar(h[k]);
  }

  /** In-document jumps (`#name`) and `mailto:` links are never external. */
  lemma JumpAndMailtoAreNotExternal(h: string)
    requires (|h| >= 1 && h[0] == '#' && (|h| == 1 || h[1] != '#')) || StartsWithFolded(h, "mailto:")
    ensures !IsExternalHref(h)
  {
    var t := BeforeEnd(h);
    if StartsWithFolded(h, "mailto:") {
      FoldedAt(h, "mailto:", 0);
      assert h[0] != '#';
      if StartsWithFolded(h, "http://") { FoldedAt(h, "http://", 0); }
      if StartsWithFolded(h, "https://") { FoldedAt(h, "https://", 0); }
      if StartsWithFolded(h, TRACK_CLICK) { FoldedAt(h, TRACK_CLICK, 0); }
      if |t| >= 5 { assert t[0] == h[0]; }
    } else {
      assert LowerChar(h[0]) == '#';
      if StartsWithFolded(h, "http://") { FoldedAt(h, "http://", 0); }
      if StartsWithFolded(h, "https://") { FoldedAt(h, "https://", 0); }
      if StartsWithFolded(h, TRACK_CLICK) { FoldedAt(h, TRACK_CLICK, 1); }
      if |t| >= 5 { assert t[1] == h[1]; }
    }
  }

  lemma {:induction false} AlnumRunExtends(s: string, rest: string)
    requires AlnumRun(s) < |s|
    ensures AlnumRun(s + rest) == AlnumRun(s)
  {
    if IsAlnum(s[0]) {
      assert (s + rest)[1..] == s[1..] + rest;
      AlnumRunExtends(s[1..], rest);
    }
  }

  lemma FoldedExtends(s: string, p: string, rest: string)
    requires StartsWithFolded(s, p)
    ensures StartsWithFolded(s + rest, p)
  {
    assert (s + rest)[..|p|] == s[..|p|];
  }

  lemma HostPrefixExtends(s: string, rest: string)
    requires HostPrefix(s)
    ensures HostPrefix(s + rest)
  {
    AlnumRunExtends(s, rest);
  }

  lemma SchemeHostExtends(s: string, p: string, rest: string)
    requires StartsWithFolded(s, p) && HostPrefix(s[|p|..])
    ensures StartsWithFolded(s + rest, p) && HostPrefix((s + rest)[|p|..])
  {
    FoldedExtends(s, p, rest);
    assert (s + rest)[|p|..] == s[|p|..] + rest;
    HostPrefixExtends(s[|p|..], rest);
  }

  lemma UrlAtExtends(s: string, rest: string)
    requires UrlAt(s)
    ensures UrlAt(s + rest)
  {
    if StartsWithFolded(s, "http://") && HostPrefix(s[7..]) {
      SchemeHostExtends(s, "http://", rest);
    } else {
      SchemeHostExtends(s, "https://", rest);
    }
  }

  /** The URL alternative has no end anchor: what follows a matching prefix never matters. */
  lemma TrackedUrlIgnoresRest(h: string, rest: string)
    requires TrackedUrl(h)
    ensures TrackedUrl(h + rest)
  {
    if UrlAt(h) {
      UrlAtExtends(h, rest);
    } else {
      FoldedExtends(h, TRACK_CLICK, rest);
      UrlAtExtends(h[|TRACK_CLICK|..], rest);
      assert (h + rest)[|TRACK_CLICK|..] == h[|TRACK_CLICK|..] + rest;
    }
  }

  // ---------------------------------------------------------------------------
  // Placeholder prefix: re.sub(r'^##.+##', '', s)
  // ---------------------------------------------------------------------------

  /** `^##.+##` can end its match with the `##` that starts at `k`. */
  predicate ClosesAt(s: string, k: int) {
    3 <= k && k + 2 <= |s| && s[0] == '#' && s[1] == '#' && s[k] == '#' && s[k + 1] == '#' && '\n' !in s[2..k]
  }

  /** The largest closing position not above `k`. */
  function LastCloseAtOrBelow(s: string, k: int): (r: Option<nat>)
    decreases k
    ensures r.Some? ==> r.value <= k && ClosesAt(s, r.value) && forall j :: r.value < j <= k ==> !ClosesAt(s, j)
    ensures r.None? ==> forall j :: j <= k ==> !ClosesAt(s, j)
  {
    if k < 3 then None else if ClosesAt(s, k) then Some(k) else LastCloseAtOrBelow(s, k - 1)
  }

  /**
   * The URL the reviewer looks up: `href` without a leading `##…##` template
   * prefix. The greedy `.+` makes the prefix run to the LAST `##` of the
   * first line.
   */
  function StripPlaceholder(s: string): (r: string)
    ensures (forall k :: !ClosesAt(s, k)) ==> r == s
    ensures (exists k :: ClosesAt(s, k)) ==>
              exists k :: ClosesAt(s, k) && r == s[k + 2..] && forall j :: ClosesAt(s, j) ==> j <= k
  {
    match LastCloseAtOrBelow(s, |s| - 2)
    case Some(k) => s[k + 2..]
    case None => s
  }

  /** `##TrackClick##https://…` (or any `##…##` prefix) loses exactly its prefix. */
  lemma StripTemplatePrefix(m: string, u: string)
    requires |m| >= 1 && '\n' !in m
    requires '#' !in u
    ensures StripPlaceholder("##" + m + "##" + u) == u
  {
    var s := "##" + m + "##" + u;
    var k0 := |m| + 2;
    assert s[2..k0] == m;
    assert ClosesAt(s, k0);
    forall j | k0 < j && j + 2 <= |s| ensures !ClosesAt(s, j) {
      assert s[j + 1] == u[j + 1 - k0 - 2];
    }
    assert s[k0 + 2..] == u;
  }

  // ---------------------------------------------------------------------------
  // Double tracking:
  // http://www\.ismailiinsight\.org/enewsletterpro/(?:v|t)\.aspx\?.*url=(.+?)(?:&|$)   under re.I
  // ---------------------------------------------------------------------------

  const TRACKER_V: string := "http://www.ismailiinsight.org/enewsletterpro/v.aspx?"
  const TRACKER_T: string := "http://www.ismailiinsight.org/enewsletterpro/t.aspx?"

  /** Where the query of a tracker page begins. */
  const QUERY_START: nat := |TRACKER_V|

  /** `href` is the newsletter platform's redirect page (either variant), compared case-insensitively. */
  predicate TrackerPage(h: string) {
    StartsWithFolded(h, TRACKER_V) || StartsWithFolded(h, TRACKER_T)
  }

  function Query(h: string): string
    requires TrackerPage(h)
  {
    h[QUERY_START..]
  }

  /** `(?:&|$)` matches at `e`. */
  predicate GroupStops(r: string, e: int) {
    0 <= e && (e == |r| || (e < |r| && r[e] == '&') || (e + 1 == |r| && r[e] == '\n'))
  }

  /**
   * `.*url=(.+?)(?:&|$)` matches the query `r` with `url=` at `i` and the
   * group `r[i + 4..e]`: nothing before `e` is a newline, the group is not
   * empty, and `&` or the end follows it.
   */
  predicate ParamMatch(r: string, i: int, e: int) {
    0 <= i && i + 4 < e <= |r| && '\n' !in r[..e] && Lower(r[i..i + 4]) == "url=" && GroupStops(r, e)
  }

  /** The regular expression's match in the query `r` is the `url=` at `i` with its group ending at `e`. */
  ghost predicate SettlesOn(r: string, i: int, e: int) {
    && ParamMatch(r, i, e)
    && (forall b, x :: ParamMatch(r, b, x) ==> b <= i)
    && (forall x :: ParamMatch(r, i, x) ==> e <= x)
  }

  /** The lazy group: the first end at or after `e` for the `url=` at `i`. */
  function FirstStop(r: string, i: nat, e: nat): (res: Option<nat>)
    requires i + 4 < e
    decreases |r| + 1 - e
    ensures res.Some? ==> e <= res.value && ParamMatch(r, i, res.value)
                          && forall x :: e <= x < res.value ==> !ParamMatch(r, i, x)
    ensures res.None? ==> forall x :: e <= x ==> !ParamMatch(r, i, x)
  {
    if e > |r| || Lower(r[i..i + 4]) != "url=" then None
    else if '\n' in r[..e] then
      assert forall x :: e <= x <= |r| ==> r[..e] <= r[..x];
      None
    else if GroupStops(r, e) then Some(e)
    else FirstStop(r, i, e + 1)
  }

  /** The greedy `.*`: the last `url=` at or before `i` that has a group. */
  function LastParam(r: string, i: int): (res: Option<(nat, nat)>)
    decreases i
    ensures res.Some? ==> res.value.0 <= i && ParamMatch(r, res.value.0, res.value.1)
                          && (forall x :: ParamMatch(r, res.value.0, x) ==> res.value.1 <= x)
                          && (forall b, x :: res.value.0 < b <= i ==> !ParamMatch(r, b, x))
    ensures res.None? ==> forall b, x :: b <= i ==> !ParamMatch(r, b, x)
  {
    if i < 0 then None
    else match FirstStop(r, i, i + 5)
      case Some(e) => Some((i, e))
      case None => LastParam(r, i - 1)
  }

  /**
   * The `url=` parameter of a double-tracked link, or None when `href` is
   * not one. The match uses the last `url=` of the first line, and the
   * value runs to the first `&` or to the end.
   */
  function DoubleTrackedUrl(h: string): (g: Option<string>)
    ensures g.Some? <==> TrackerPage(h) && exists i, e :: ParamMatch(Query(h), i, e)
    ensures g.Some? ==> exists i, e :: SettlesOn(Query(h), i, e) && g.value == Query(h)[i + 4..e]
  {
    if !TrackerPage(h) then None
    else
      var q := Query(h);
      match LastParam(q, |q|)
      case Some((i, e)) =>
        assert SettlesOn(q, i, e);
        Some(q[i + 4..e])
      case None =>
        assert forall b, x :: ParamMatch(q, b, x) ==> b <= |q|;
        None
  }

  /** What `quote_plus` writes contains no `=`, `&`, newline or `#`. */
  lemma EncodedIsPlain(u: string)
    requires IsAsciiText(u)
    ensures forall k :: 0 <= k < |QuotePlus(u)| ==> QuotePlus(u)[k] !in "=&\n#"
  {
  }

  /** In `q + "url=" + enc`, the regular expression settles on the `url=` after `q` and the whole of `enc`. */
  lemma LastParamIsEncoded(q: string, enc: string)
    requires '\n' !in q && enc != []
    requires forall k :: 0 <= k < |enc| ==> enc[k] !in "=&\n#"
    ensures SettlesOn(q + "url=" + enc, |q|, |q + "url=" + enc|)
  {
    var r := q + "url=" + enc;
    var i0 := |q|;
    assert r[i0..i0 + 4] == "url=";
    assert Lower("url=") == "url=" by {
      assert Lower("url=")[0] == 'u' && Lower("url=")[1] == 'r';
      assert Lower("url=")[2] == 'l' && Lower("url=")[3] == '=';
    }
    assert r[..|r|] == r;
    assert forall k :: 0 <= k < |r| ==> r[k] != '\n' by {
      forall k | 0 <= k < |r| ensures r[k] != '\n' {
        if k < i0 { assert r[k] == q[k]; }
        else if k >= i0 + 4 { assert r[k] == enc[k - i0 - 4]; }
      }
    }
    assert ParamMatch(r, i0, |r|);
    forall b, x | i0 < b && b + 4 < x <= |r| ensures !ParamMatch(r, b, x) {
      assert Lower(r[b..b + 4])[3] == LowerChar(r[b + 3]);
      assert r[b + 3] == enc[b + 3 - i0 - 4];
    }
    forall x | i0 + 4 < x < |r| ensures !ParamMatch(r, i0, x) {
      assert r[x] == enc[x - i0 - 4];
    }
  }

  /** The regular expression's choice of `url=` and group end determines the extracted value. */
  lemma DoubleTrackedUrlIs(h: string, r: string, i0: int, e0: int)
    requires TrackerPage(h) && r == Query(h)
    requires SettlesOn(r, i0, e0)
    ensures DoubleTrackedUrl(h) == Some(r[i0 + 4..e0])
  {
    var g := DoubleTrackedUrl(h);
    var i, e :| SettlesOn(r, i, e) && g.value == r[i + 4..e];
    assert i == i0;
    assert e == e0;
  }

  /** A tracker page followed by `q`, `url=` and a plain non-empty value settles on that value. */
  lemma WrappedSettles(page: string, q: string, enc: string)
    requires Lower(page) == TRACKER_V || Lower(page) == TRACKER_T
    requires '\n' !in q && enc != []
    requires forall k :: 0 <= k < |enc| ==> enc[k] !in "=&\n#"
    ensures TrackerPage(page + q + "url=" + enc)
    ensures Query(page + q + "url=" + enc) == q + "url=" + enc
    ensures SettlesOn(q + "url=" + enc, |q|, |q + "url=" + enc|)
  {
    var h := page + q + "url=" + enc;
    assert |page| == QUERY_START;
    assert h[..|page|] == page;
    assert h[QUERY_START..] == q + "url=" + enc;
    LastParamIsEncoded(q, enc);
  }

  /** A tracker page followed by `q`, `url=` and a plain non-empty value yields that value. */
  lemma WrappedUrlIsExtracted(page: string, q: string, enc: string)
    requires Lower(page) == TRACKER_V || Lower(page) == TRACKER_T
    requires '\n' !in q && enc != []
    requires forall k :: 0 <= k < |enc| ==> enc[k] !in "=&\n#"
    ensures DoubleTrackedUrl(page + q + "url=" + enc) == Some(enc)
  {
    WrappedSettles(page, q, enc);
    var r := q + "url=" + enc;
    DoubleTrackedUrlIs(page + q + "url=" + enc, r, |q|, |r|);
    assert r[|q| + 4..|r|] == enc;
  }

  /**
   * A destination wrapped by the platform (`…/t.aspx?<query>url=<quote_plus(u)>`)
   * comes back out unchanged: the wrapper yields exactly the encoded
   * destination, and decoding it gives `u`.
   */
  lemma DoubleTrackedRoundTrip(page: string, q: string, u: string)
    requires Lower(page) == TRACKER_V || Lower(page) == TRACKER_T
    requires '\n' !in q
    requires IsAsciiText(u) && u != []
    ensures DoubleTrackedUrl(page + q + "url=" + QuotePlus(u)) == Some(QuotePlus(u))
    ensures UnquotePlus(QuotePlus(u)) == u
  {
    EncodedIsPlain(u);
    WrappedUrlIsExtracted(page, q, QuotePlus(u));
    UnquoteQuoteRoundTrip(u);
  }
}
