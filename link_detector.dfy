/** `lib/link-detector.ts`: classifying a URL by its hostname, extracting a YouTube video id, and the
    image URLs derived from them. `new URL(url).hostname` is taken as an input (`None` where the
    constructor throws); the call to the preview service is replaced by its answer. */
module LinkDetector {
  import opened Wrappers
  import opened Strings
  import opened BookmarkTypes

  // ---------------------------------------------------------------------------------------------
  // detectPlatform

  /** `detectPlatform`: substring tests on the lower-cased hostname, in a fixed order. */
  function DetectPlatform(hostname: string): Platform {
    var domain := Lower(hostname);
    if Contains(domain, "youtube.com") || Contains(domain, "youtu.be") then YouTube
    else if Contains(domain, "twitter.com") || Contains(domain, "x.com") then Twitter
    else if Contains(domain, "linkedin.com") then LinkedIn
    else if Contains(domain, ".") then Website
    else Other
  }

  /** The lower-cased hostname contains `pat` somewhere. */
  ghost predicate HostHas(hostname: string, pat: string) {
    exists i :: OccursAt(Lower(hostname), pat, i)
  }

  /** The priority of the classification: YouTube hosts first, then Twitter hosts (any host that
      contains "x.com"), then LinkedIn hosts, then any dotted host, and "other" for the rest. */
  lemma DetectPlatformPriority(hostname: string)
    ensures var yt := HostHas(hostname, "youtube.com") || HostHas(hostname, "youtu.be");
      var tw := HostHas(hostname, "twitter.com") || HostHas(hostname, "x.com");
      var li := HostHas(hostname, "linkedin.com");
      var dot := HostHas(hostname, ".");
      && (DetectPlatform(hostname) == YouTube <==> yt)
      && (DetectPlatform(hostname) == Twitter <==> !yt && tw)
      && (DetectPlatform(hostname) == LinkedIn <==> !yt && !tw && li)
      && (DetectPlatform(hostname) == Website <==> !yt && !tw && !li && dot)
      && (DetectPlatform(hostname) == Other <==> !yt && !tw && !li && !dot)
  {
    var d := Lower(hostname);
    ContainsIff(d, "youtube.com");
    ContainsIff(d, "youtu.be");
    ContainsIff(d, "twitter.com");
    ContainsIff(d, "x.com");
    ContainsIff(d, "linkedin.com");
    ContainsIff(d, ".");
  }

  /** The classification ignores the case of ASCII letters. */
  lemma DetectPlatformIgnoresCase(h1: string, h2: string)
    requires |h1| == |h2| && forall i :: 0 <= i < |h1| ==> LowerChar(h1[i]) == LowerChar(h2[i])
    ensures DetectPlatform(h1) == DetectPlatform(h2)
  {
    assert Lower(h1) == Lower(h2);
  }

  /** A host without upper-case letters is its own lower-cased form. */
  lemma LowerOfLowerCase(s: string)
    requires forall i :: 0 <= i < |s| ==> !('A' <= s[i] <= 'Z')
    ensures Lower(s) == s
  {
  }

  /** A pattern whose first character does not occur in `s` is not found in it. */
  lemma NotContainedFirstChar(s: string, pat: string)
    requires pat != [] && pat[0] !in s
    ensures !Contains(s, pat)
  {
    ContainsIff(s, pat);
    forall i | 0 <= i && i + |pat| <= |s| ensures !OccursAt(s, pat, i) {
      assert s[i..i + |pat|][0] == s[i];
    }
  }

  /** A pattern is found where it occurs. */
  lemma ContainedAt(s: string, pat: string, i: nat)
    requires i + |pat| <= |s| && s[i..i + |pat|] == pat
    ensures Contains(s, pat)
  {
    ContainsIff(s, pat);
    assert OccursAt(s, pat, i);
  }

  /** "netflix.com" is already lower-case. */
  lemma NetflixLowerCase(d: string)
    requires d == "netflix.com"
    ensures Lower(d) == d
  {
    LowerOfLowerCase(d);
  }

  /** "netflix.com" contains neither YouTube pattern. */
  lemma NetflixNotYouTube(d: string)
    requires d == "netflix.com"
    ensures !Contains(d, "youtube.com") && !Contains(d, "youtu.be")
  {
    NotContainedFirstChar(d, "youtube.com");
    NotContainedFirstChar(d, "youtu.be");
  }

  /** "netflix.com" ends in "x.com". */
  lemma NetflixHasXDotCom(d: string)
    requires d == "netflix.com"
    ensures Contains(d, "x.com")
  {
    ContainedAt(d, "x.com", 6);
  }

  /** Any host that is not a YouTube host and contains "x.com" counts as Twitter, "netflix.com"
      among them. */
  lemma XDotComHost(d: string)
    requires d == "netflix.com"
    ensures DetectPlatform(d) == Twitter
  {
    NetflixLowerCase(d);
    NetflixNotYouTube(d);
    NetflixHasXDotCom(d);
  }

  // ---------------------------------------------------------------------------------------------
  // extractYouTubeVideoId

  /** The characters the capture group `[^&\n?#]+` refuses. */
  predicate IsStop(c: char) {
    c == '&' || c == '\n' || c == '?' || c == '#'
  }

  /** The characters `.` refuses. */
  predicate IsLineTerminator(c: char) {
    c == '\n' || c == '\r' || c == '\U{2028}' || c == '\U{2029}'
  }

  /** The greedy group `([^&\n?#]+)` started at `j`: the longest run of non-stop characters. */
  function RunFrom(s: string, j: nat): (r: string)
    requires j <= |s|
    ensures j + |r| <= |s| && r == s[j..j + |r|]
    ensures forall k :: 0 <= k < |r| ==> !IsStop(r[k])
    ensures j + |r| == |s| || IsStop(s[j + |r|])
    decreases |s| - j
  {
    if j == |s| || IsStop(s[j]) then [] else [s[j]] + RunFrom(s, j + 1)
  }

  /** A captured video id: non-empty and free of stop characters. */
  predicate IsVideoId(v: string) {
    v != [] && forall k :: 0 <= k < |v| ==> !IsStop(v[k])
  }

  /** The alternatives of the first pattern, in the order the regular expression tries them. */
  const Pattern1Alternatives: seq<string> := ["youtube.com/watch?v=", "youtu.be/", "youtube.com/embed/"]

  /** Alternative `a` fits at position `i`: it occurs there and a group character follows it. */
  predicate Fits(s: string, i: nat, a: string) {
    i <= |s| && StartsWith(s[i..], a) && i + |a| < |s| && !IsStop(s[i + |a|])
  }

  /** The first pattern tried at position `i`: the first alternative that fits there, and the
      group it captures. */
  function MatchAt(s: string, i: nat, alternatives: seq<string>): (r: Option<string>)
    requires i <= |s|
    ensures r.Some? ==> IsVideoId(r.value)
  {
    if alternatives == [] then None
    else if Fits(s, i, alternatives[0]) then Some(RunFrom(s, i + |alternatives[0]|))
    else MatchAt(s, i, alternatives[1..])
  }

  /** The first pattern matches nowhere at or after `i`. */
  ghost predicate Pattern1Misses(s: string, i: nat) {
    forall k :: i <= k <= |s| ==> MatchAt(s, k, Pattern1Alternatives).None?
  }

  /** `k` is the leftmost position at or after `i` where the first pattern matches. */
  ghost predicate LeftmostPattern1(s: string, i: nat, k: nat) {
    i <= k <= |s| && MatchAt(s, k, Pattern1Alternatives).Some? &&
    forall k' :: i <= k' < k ==> MatchAt(s, k', Pattern1Alternatives).None?
  }

  /** `url.match(pattern1)` from position `i` on: the match at the leftmost position. */
  function SearchPattern1(s: string, i: nat): (r: Option<string>)
    requires i <= |s|
    ensures r.Some? ==> IsVideoId(r.value)
    ensures r.None? <==> Pattern1Misses(s, i)
    ensures r.Some? ==> exists k :: LeftmostPattern1(s, i, k) && r == MatchAt(s, k, Pattern1Alternatives)
    decreases |s| - i
  {
    var m := MatchAt(s, i, Pattern1Alternatives);
    if m.Some? then
      assert LeftmostPattern1(s, i, i);
      m
    else if i == |s| then None
    else
      var r := SearchPattern1(s, i + 1);
      assert r.None? ==> Pattern1Misses(s, i) by {
        if r.None? {
          assert forall k :: i < k <= |s| ==> MatchAt(s, k, Pattern1Alternatives).None?;
        }
      }
      assert r.Some? ==> exists k :: LeftmostPattern1(s, i, k) && r == MatchAt(s, k, Pattern1Alternatives) by {
        if r.Some? {
          var k :| LeftmostPattern1(s, i + 1, k) && r == MatchAt(s, k, Pattern1Alternatives);
          assert LeftmostPattern1(s, i, k);
        }
      }
      r
  }

  /** The literal head of the second pattern. */
  const Pattern2Head := "youtube.com/watch?"

  /** How far `.*` started at `j` can reach: the first line terminator at or after `j`, or the end. */
  function DotStarEnd(s: string, j: nat): (e: nat)
    requires j <= |s|
    ensures j <= e <= |s|
    ensures forall k :: j <= k < e ==> !IsLineTerminator(s[k])
    ensures e == |s| || IsLineTerminator(s[e])
    decreases |s| - j
  {
    if j == |s| || IsLineTerminator(s[j]) then j else DotStarEnd(s, j + 1)
  }

  /** "v=" at `j`, followed by a group character. */
  predicate VThenGroupAt(s: string, j: nat) {
    j + 2 < |s| && s[j] == 'v' && s[j + 1] == '=' && !IsStop(s[j + 2])
  }

  /** No position in `lo..hi` holds "v=" followed by a group character. */
  ghost predicate NoVThenGroup(s: string, lo: nat, hi: int) {
    forall j :: lo <= j <= hi ==> !VThenGroupAt(s, j)
  }

  /** `j` is the last position in `lo..hi` holding "v=" followed by a group character. */
  ghost predicate LastVThenGroup(s: string, lo: nat, hi: int, j: int) {
    lo <= j <= hi && VThenGroupAt(s, j) && forall j' :: j < j' <= hi ==> !VThenGroupAt(s, j')
  }

  /** The backtracking of the greedy `.*`: the group after the last "v=" at or before `hi` (and at
      or after `lo`) that is followed by a group character. */
  function BacktrackV(s: string, lo: nat, hi: int): (r: Option<string>)
    requires hi <= |s|
    ensures r.Some? ==> IsVideoId(r.value)
    ensures r.None? <==> NoVThenGroup(s, lo, hi)
    decreases hi - lo + 1
  {
    if hi < lo then None
    else if VThenGroupAt(s, hi) then Some(RunFrom(s, hi + 2))
    else BacktrackV(s, lo, hi - 1)
  }

  /** The greedy choice: the group backtracking finds is the one after the last fitting "v=". */
  lemma {:induction false} BacktrackVLast(s: string, lo: nat, hi: int)
    requires hi <= |s|
    ensures var r := BacktrackV(s, lo, hi);
      r.Some? ==> exists j :: LastVThenGroup(s, lo, hi, j) && r.value == RunFrom(s, j + 2)
    decreases hi - lo + 1
  {
    if hi < lo {
    } else if VThenGroupAt(s, hi) {
      assert LastVThenGroup(s, lo, hi, hi);
    } else {
      BacktrackVLast(s, lo, hi - 1);
      var r := BacktrackV(s, lo, hi - 1);
      if r.Some? {
        var j :| LastVThenGroup(s, lo, hi - 1, j) && r.value == RunFrom(s, j + 2);
        assert LastVThenGroup(s, lo, hi, j);
      }
    }
  }

  /** The second pattern tried at position `i`. */
  function Pattern2At(s: string, i: nat): (r: Option<string>)
    requires i <= |s|
    ensures r.Some? ==> IsVideoId(r.value)
  {
    if StartsWith(s[i..], Pattern2Head) then
      var lo := i + |Pattern2Head|;
      BacktrackV(s, lo, DotStarEnd(s, lo))
    else None
  }

  /** The second pattern matches nowhere at or after `i`. */
  ghost predicate Pattern2Misses(s: string, i: nat) {
    forall k :: i <= k <= |s| ==> Pattern2At(s, k).None?
  }

  /** `k` is the leftmost position at or after `i` where the second pattern matches. */
  ghost predicate LeftmostPattern2(s: string, i: nat, k: nat) {
    i <= k <= |s| && Pattern2At(s, k).Some? && forall k' :: i <= k' < k ==> Pattern2At(s, k').None?
  }

  /** `url.match(pattern2)` from position `i` on: the match at the leftmost position. */
  function SearchPattern2(s: string, i: nat): (r: Option<string>)
    requires i <= |s|
    ensures r.Some? ==> IsVideoId(r.value)
    ensures r.None? <==> Pattern2Misses(s, i)
    ensures r.Some? ==> exists k :: LeftmostPattern2(s, i, k) && r == Pattern2At(s, k)
    decreases |s| - i
  {
    var m := Pattern2At(s, i);
    if m.Some? then
      assert LeftmostPattern2(s, i, i);
      m
    else if i == |s| then None
    else
      var r := SearchPattern2(s, i + 1);
      assert r.Some? ==> exists k :: LeftmostPattern2(s, i, k) && r == Pattern2At(s, k) by {
        if r.Some? {
          var k :| LeftmostPattern2(s, i + 1, k) && r == Pattern2At(s, k);
          assert LeftmostPattern2(s, i, k);
        }
      }
      r
  }

  /** `extractYouTubeVideoId`: the first pattern that matches wins; `None` for `null`. */
  function ExtractYouTubeVideoId(url: string): (r: Option<string>)
    ensures r.Some? ==> IsVideoId(r.value)
  {
    match SearchPattern1(url, 0)
    case Some(v) => Some(v)
    case None => SearchPattern2(url, 0)
  }

  /** The position of the earliest listed alternative that fits at `i`; the number of
      alternatives when none does. */
  function FirstFitIndex(s: string, i: nat, alternatives: seq<string>): (n: nat)
    ensures n <= |alternatives|
  {
    if alternatives == [] then 0
    else if Fits(s, i, alternatives[0]) then 0
    else 1 + FirstFitIndex(s, i, alternatives[1..])
  }

  /** A match at position `i` is the group after the earliest listed alternative that fits there,
      and there is none exactly when no alternative fits. */
  lemma {:induction false} MatchAtFirstFit(s: string, i: nat, alternatives: seq<string>)
    requires i <= |s|
    ensures var n := FirstFitIndex(s, i, alternatives);
      && (forall m :: 0 <= m < n ==> !Fits(s, i, alternatives[m]))
      && (n < |alternatives| ==>
            Fits(s, i, alternatives[n]) && MatchAt(s, i, alternatives) == Some(RunFrom(s, i + |alternatives[n]|)))
      && (n == |alternatives| ==> MatchAt(s, i, alternatives).None?)
    decreases |alternatives|
  {
    if alternatives != [] && !Fits(s, i, alternatives[0]) {
      var tail := alternatives[1..];
      MatchAtFirstFit(s, i, tail);
      var n := FirstFitIndex(s, i, alternatives);
      assert n == 1 + FirstFitIndex(s, i, tail);
      assert MatchAt(s, i, alternatives) == MatchAt(s, i, tail);
      forall m | 1 <= m < |alternatives| ensures alternatives[m] == tail[m - 1] {
      }
    }
  }

  /** The leftmost position of a match is unique. */
  lemma LeftmostPattern1Unique(s: string, i: nat, k1: nat, k2: nat)
    requires LeftmostPattern1(s, i, k1) && LeftmostPattern1(s, i, k2)
    ensures k1 == k2
  {
  }

  /** `extractYouTubeVideoId` finds nothing exactly when neither pattern matches anywhere, and the
      first pattern's leftmost match wins over anything the second would find. */
  lemma ExtractSpec(url: string)
    ensures ExtractYouTubeVideoId(url).None? <==> Pattern1Misses(url, 0) && Pattern2Misses(url, 0)
    ensures forall k :: LeftmostPattern1(url, 0, k) ==> ExtractYouTubeVideoId(url) == MatchAt(url, k, Pattern1Alternatives)
    ensures Pattern1Misses(url, 0) ==> ExtractYouTubeVideoId(url) == SearchPattern2(url, 0)
  {
    forall k | LeftmostPattern1(url, 0, k) ensures ExtractYouTubeVideoId(url) == MatchAt(url, k, Pattern1Alternatives) {
      var r := SearchPattern1(url, 0);
      var m :| LeftmostPattern1(url, 0, m) && r == MatchAt(url, m, Pattern1Alternatives);
      LeftmostPattern1Unique(url, 0, k, m);
    }
  }

  /** The short-link form: "youtu.be/ab" yields "ab". */
  lemma ShortLinkVideoId(u: string)
    requires u == "youtu.be/ab"
    ensures ExtractYouTubeVideoId(u) == Some("ab")
  {
    assert !Fits(u, 0, Pattern1Alternatives[0]);
    assert u[0..][..9] == "youtu.be/";
    assert Fits(u, 0, Pattern1Alternatives[1]);
    assert RunFrom(u, 11) == [];
    assert RunFrom(u, 10) == ['b'];
    assert RunFrom(u, 9) == "ab";
    assert MatchAt(u, 0, Pattern1Alternatives) == Some("ab");
    assert SearchPattern1(u, 0) == Some("ab");
  }

  // ---------------------------------------------------------------------------------------------
  // getYouTubeThumbnail, getFaviconUrl and the fallback of fetchLinkPreview

  const ThumbnailPrefix := "https://i.ytimg.com/vi/"
  const ThumbnailSuffix := "/hqdefault.jpg"

  /** `getYouTubeThumbnail`. */
  function YouTubeThumbnail(videoId: string): string {
    ThumbnailPrefix + videoId + ThumbnailSuffix
  }

  /** The video id a thumbnail URL was built from. */
  function ThumbnailVideoId(url: string): Option<string> {
    if |url| >= |ThumbnailPrefix| + |ThumbnailSuffix| && url[..|ThumbnailPrefix|] == ThumbnailPrefix
       && url[|url| - |ThumbnailSuffix|..] == ThumbnailSuffix
    then Some(url[|ThumbnailPrefix|..|url| - |ThumbnailSuffix|])
    else None
  }

  /** The thumbnail URL determines the video id. */
  lemma ThumbnailRoundTrip(videoId: string)
    ensures ThumbnailVideoId(YouTubeThumbnail(videoId)) == Some(videoId)
  {
    var u := YouTubeThumbnail(videoId);
    assert u[..|ThumbnailPrefix|] == ThumbnailPrefix;
    assert u[|u| - |ThumbnailSuffix|..] == ThumbnailSuffix;
    assert u[|ThumbnailPrefix|..|u| - |ThumbnailSuffix|] == videoId;
  }

  /** Distinct video ids give distinct thumbnails. */
  lemma ThumbnailInjective(v: string, w: string)
    ensures YouTubeThumbnail(v) == YouTubeThumbnail(w) ==> v == w
  {
    ThumbnailRoundTrip(v);
    ThumbnailRoundTrip(w);
  }

  const FaviconPrefix := "https://www.google.com/s2/favicons?domain="
  const FaviconSuffix := "&sz=32"
  const FaviconFallback := "/website-icon.jpg"

  /** `getFaviconUrl`, given the hostname `new URL(url)` yields (`None` where it throws). */
  function FaviconUrl(hostname: Option<string>): string {
    match hostname
    case Some(h) => FaviconPrefix + h + FaviconSuffix
    case None => FaviconFallback
  }

  /** The hostname a favicon URL was built from; `None` for the fallback icon. */
  function FaviconHost(url: string): Option<string> {
    if |url| >= |FaviconPrefix| + |FaviconSuffix| && url[..|FaviconPrefix|] == FaviconPrefix
       && url[|url| - |FaviconSuffix|..] == FaviconSuffix
    then Some(url[|FaviconPrefix|..|url| - |FaviconSuffix|])
    else None
  }

  /** The favicon URL determines the hostname, and the fallback icon is never a built URL. */
  lemma FaviconRoundTrip(hostname: Option<string>)
    ensures FaviconHost(FaviconUrl(hostname)) == hostname
    ensures FaviconUrl(hostname) != ""
  {
    if hostname.Some? {
      var u := FaviconUrl(hostname);
      assert u[..|FaviconPrefix|] == FaviconPrefix;
      assert u[|u| - |FaviconSuffix|..] == FaviconSuffix;
      assert u[|FaviconPrefix|..|u| - |FaviconSuffix|] == hostname.value;
    }
  }

  /** `fetchLinkPreview` with the service call replaced by its outcome: `response` is the parsed
      answer of a successful call, `None` when the call throws, answers a non-2xx status or its
      body does not parse. A failure degrades to exactly `{ title: hostname, url }`. */
  function FetchLinkPreview(response: Option<LinkPreview>, url: string, hostname: string): (p: LinkPreview)
    ensures response.None? ==>
      (p.title == Some(hostname) && p.url == Some(url) && p.image.None? && p.description.None? && p.domain.None?)
  {
    match response
    case Some(answer) => answer
    case None => LinkPreview(Some(hostname), None, None, Some(url), None)
  }
}
