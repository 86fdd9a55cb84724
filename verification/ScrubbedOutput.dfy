/** What redaction leaves: no userinfo in any URL, whatever the token, or exactly which tokens can bring some back. */
module ScrubbedOutput {
  import opened Prelude
  import opened Redaction

  // ---- URLs with userinfo -----------------------------------------------------------------

  predicate Spelled(w: string, lower: string, upper: string)
    requires |lower| == |upper|
  {
    |w| == |lower| && forall k | 0 <= k < |lower| :: w[k] == lower[k] || w[k] == upper[k]
  }

  /** http:// or https:// in any case. */
  predicate IsScheme(w: string) { Spelled(w, "http://", "HTTP://") || Spelled(w, "https://", "HTTPS://") }

  predicate SchemeAt(text: string, i: nat, h: nat) { i + h <= |text| && IsScheme(text[i..i + h]) }

  /** No at-sign, slash or white space. */
  predicate Plain(w: string) {
    forall k | 0 <= k < |w| :: w[k] != '@' && w[k] != '/' && !Space(w[k])
  }

  /** A URL at `i` whose scheme is `h` long, with userinfo `n` long. */
  predicate UrlAt(text: string, i: nat, h: nat, n: nat) {
    && n > 0 && i + h + n < |text|
    && SchemeAt(text, i, h) && Plain(text[i + h..i + h + n]) && text[i + h + n] == '@'
  }

  /** The userinfo of every URL is three stars. */
  ghost predicate AllStarred(text: string) {
    forall i: nat, h: nat, n: nat | UrlAt(text, i, h, n) :: text[i + h..i + h + n] == STARS
  }

  lemma SchemeLenIs(text: string, i: nat, h: nat)
    requires i <= |text|
    ensures SchemeAt(text, i, h) <==> h > 0 && SchemeLen(text[i..]) == h
  {
    var rest := text[i..];
    if i + h <= |text| {
      assert rest[..h] == text[i..i + h];
      SpelledIs(rest, "http://", "HTTP://");
      SpelledIs(rest, "https://", "HTTPS://");
      if |rest| > 4 { assert Lower(rest[4]) == "http://"[4] ==> Lower(rest[4]) != "https://"[4]; }
    }
  }

  lemma SpelledIs(rest: string, lower: string, upper: string)
    requires (lower, upper) in {("http://", "HTTP://"), ("https://", "HTTPS://")}
    ensures |lower| <= |rest| && Spelled(rest[..|lower|], lower, upper) <==> StartsNoCase(rest, lower)
  {
    if |lower| <= |rest| {
      forall k | 0 <= k < |lower| ensures Lower(rest[k]) == lower[k] <==> rest[k] == lower[k] || rest[k] == upper[k] {
        assert lower[k] in {'h', 't', 'p', 's', ':', '/'};
      }
      assert forall k | 0 <= k < |lower| :: rest[..|lower|][k] == rest[k];
    }
  }

  lemma SchemeChars(w: string)
    requires IsScheme(w)
    ensures |w| in {7, 8} && (w[0] == 'h' || w[0] == 'H')
    ensures w[|w| - 1] == '/' && w[|w| - 2] == '/' && w[|w| - 3] == ':'
    ensures '@' !in w && '*' !in w && 'a' !in w && 'b' !in w && 'h' !in w[1..] && 'H' !in w[1..]
  {
    if |w| == 7 {
      SpelledChars(w, "http://", "HTTP://");
    } else {
      SpelledChars(w, "https://", "HTTPS://");
    }
  }

  lemma SpelledChars(w: string, lower: string, upper: string)
    requires (lower, upper) in {("http://", "HTTP://"), ("https://", "HTTPS://")} && Spelled(w, lower, upper)
    ensures w[0] == lower[0] || w[0] == upper[0]
    ensures w[|w| - 1] == lower[|w| - 1] && w[|w| - 2] == lower[|w| - 2] && w[|w| - 3] == lower[|w| - 3]
    ensures '@' !in w && '*' !in w && 'a' !in w && 'b' !in w && 'h' !in w[1..] && 'H' !in w[1..]
  {
    var n := |w|;
    assert lower[n - 1] == upper[n - 1] && lower[n - 2] == upper[n - 2] && lower[n - 3] == upper[n - 3];
    assert forall k | 0 <= k < n :: lower[k] in {'h', 't', 'p', 's', ':', '/'} && (k > 0 ==> lower[k] != 'h');
    assert forall k | 0 <= k < n :: upper[k] in {'H', 'T', 'P', 'S', ':', '/'} && (k > 0 ==> upper[k] != 'H');
  }

  lemma RunLenIs(text: string, i: nat, n: nat)
    requires i + n < |text| && text[i + n] == '@'
    ensures RunLen(text[i..]) == n <==> Plain(text[i..i + n])
  {
    var rest, run := text[i..], text[i..i + n];
    assert rest[n] == text[i + n] && forall k | 0 <= k < n :: rest[k] == run[k];
    if Plain(run) { RunIs(rest, n); }
  }

  lemma UserinfoAtIs(rest: string, h: nat, n: nat)
    ensures UserinfoAt(rest) == Some((h, n)) <==>
            h > 0 && n > 0 && SchemeLen(rest) == h && h + n < |rest| && RunLen(rest[h..]) == n && rest[h + n] == '@'
  {
  }

  lemma UrlMatches(text: string, i: nat, h: nat, n: nat)
    requires UrlAt(text, i, h, n)
    ensures UserinfoAt(text[i..]) == Some((h, n))
  {
    SchemeLenIs(text, i, h);
    RunLenIs(text, i + h, n);
    assert text[i..][h..] == text[i + h..] && text[i..][h + n] == text[i + h + n];
    UserinfoAtIs(text[i..], h, n);
  }

  lemma MatchIsUrl(text: string, i: nat, h: nat, n: nat)
    requires i <= |text| && UserinfoAt(text[i..]) == Some((h, n))
    ensures UrlAt(text, i, h, n)
  {
    UserinfoAtIs(text[i..], h, n);
    SchemeLenIs(text, i, h);
    assert text[i..][h..] == text[i + h..] && text[i..][h + n] == text[i + h + n];
    RunLenIs(text, i + h, n);
  }

  lemma SliceOfSlice(text: string, lo: nat, hi: nat, a: nat, b: nat)
    requires lo <= a <= b <= hi <= |text|
    ensures text[lo..hi][a - lo..b - lo] == text[a..b]
  {
    var cut := text[lo..hi];
    forall k | 0 <= k < b - a ensures cut[a - lo..b - lo][k] == text[a..b][k] {
      assert cut[a - lo..b - lo][k] == cut[a - lo + k];
    }
  }

  lemma UrlWithin(text: string, lo: nat, hi: nat, i: nat, h: nat, n: nat)
    requires lo <= i && i + h + n < hi <= |text|
    ensures UrlAt(text, i, h, n) <==> UrlAt(text[lo..hi], i - lo, h, n)
    ensures text[lo..hi][i - lo + h..i - lo + h + n] == text[i + h..i + h + n]
  {
    SliceOfSlice(text, lo, hi, i, i + h);
    SliceOfSlice(text, lo, hi, i + h, i + h + n);
    assert i - lo + h == i + h - lo && i - lo + h + n == i + h + n - lo;
  }

  lemma UrlAfter(text: string, lo: nat, i: nat, h: nat, n: nat)
    requires lo <= i && i + h + n < |text|
    ensures UrlAt(text, i, h, n) <==> UrlAt(text[lo..], i - lo, h, n)
    ensures text[lo..][i - lo + h..i - lo + h + n] == text[i + h..i + h + n]
  {
    UrlWithin(text, lo, |text|, i, h, n);
    assert text[lo..|text|] == text[lo..];
  }

  lemma SchemeText(text: string, i: nat, h: nat)
    requires SchemeAt(text, i, h)
    ensures h in {7, 8} && (text[i] == 'h' || text[i] == 'H') && text[i + h - 1] == '/'
    ensures forall k | i < k < i + h :: text[k] != 'h' && text[k] != 'H'
    ensures forall k | i <= k < i + h :: text[k] != '@' && text[k] != '*' && text[k] != 'a' && text[k] != 'b'
  {
    var w := text[i..i + h];
    SchemeChars(w);
    assert forall k | i < k < i + h :: text[k] == w[1..][k - i - 1];
    assert forall k | i <= k < i + h :: text[k] == w[k - i];
  }

  lemma PlainText(text: string, lo: nat, hi: nat)
    requires lo <= hi <= |text|
    ensures Plain(text[lo..hi]) <==> forall k | lo <= k < hi :: text[k] != '@' && text[k] != '/' && !Space(text[k])
  {
    assert forall k | lo <= k < hi :: text[k] == text[lo..hi][k - lo];
  }

  /** A URL ends before the next scheme begins. */
  lemma EndsBeforeScheme(text: string, i: nat, h: nat, n: nat, m: nat, h': nat)
    requires UrlAt(text, i, h, n) && SchemeAt(text, m, h') && i < m
    ensures i + h + n < m
  {
    SchemeText(text, i, h);
    SchemeText(text, m, h');
    PlainText(text, i + h, i + h + n);
  }

  // ---- What the scrub does ----------------------------------------------------------------

  /** One step from left to right: a URL's userinfo becomes stars, any other character is copied. */
  ghost predicate Step(scrub: string -> string, text: string) {
    && (forall h: nat, n: nat | UrlAt(text, 0, h, n) :: scrub(text) == text[..h] + "***@" + scrub(text[h + n + 1..]))
    && (text != "" && (forall h: nat, n: nat :: !UrlAt(text, 0, h, n)) ==> scrub(text) == [text[0]] + scrub(text[1..]))
    && (text == "" ==> scrub(text) == "")
  }

  lemma FrontUrl(text: string, h: nat, n: nat)
    ensures UrlAt(text, 0, h, n) <==> UserinfoAt(text) == Some((h, n))
  {
    assert text[0..] == text;
    if UrlAt(text, 0, h, n) { UrlMatches(text, 0, h, n); }
    if UserinfoAt(text) == Some((h, n)) { MatchIsUrl(text, 0, h, n); }
  }

  lemma ScrubSteps(text: string)
    ensures Step(ScrubUserinfo, text)
  {
    forall h: nat, n: nat | UrlAt(text, 0, h, n)
      ensures ScrubUserinfo(text) == text[..h] + "***@" + ScrubUserinfo(text[h + n + 1..])
    {
      FrontUrl(text, h, n);
    }
    if UserinfoAt(text).Some? {
      FrontUrl(text, UserinfoAt(text).value.0, UserinfoAt(text).value.1);
    }
  }

  lemma {:induction false} StarredIsFixed(scrub: string -> string, text: string)
    requires (forall s: string :: Step(scrub, s)) && AllStarred(text)
    ensures scrub(text) == text
    decreases |text|
  {
    assert Step(scrub, text);
    if h: nat, n: nat :| UrlAt(text, 0, h, n) {
      StarredFrom(text, h + n + 1);
      StarredIsFixed(scrub, text[h + n + 1..]);
      StarredCut(text, h, n);
    } else if text != "" {
      StarredFrom(text, 1);
      StarredIsFixed(scrub, text[1..]);
    }
  }

  lemma StarredCut(text: string, h: nat, n: nat)
    requires AllStarred(text) && UrlAt(text, 0, h, n)
    ensures text[..h] + "***@" + text[h + n + 1..] == text
  {
    assert text[0 + h..0 + h + n] == STARS;
    assert text[..h] + text[h..h + n] + [text[h + n]] + text[h + n + 1..] == text;
    assert text[h..h + n] + [text[h + n]] == "***@";
  }

  lemma StarredFrom(text: string, lo: nat)
    requires AllStarred(text) && lo <= |text|
    ensures AllStarred(text[lo..])
  {
    forall i: nat, h: nat, n: nat | UrlAt(text[lo..], i, h, n) ensures text[lo..][i + h..i + h + n] == STARS {
      UrlAfter(text, lo, lo + i, h, n);
    }
  }

  lemma UrlBefore(text: string, hi: nat, i: nat, h: nat, n: nat)
    requires i + h + n < hi <= |text|
    ensures UrlAt(text, i, h, n) <==> UrlAt(text[..hi], i, h, n)
  {
    UrlWithin(text, 0, hi, i, h, n);
    assert text[0..hi] == text[..hi];
  }

  lemma FrontKept(scrub: string -> string, text: string, i: nat)
    requires 0 < i <= |text| && Step(scrub, text) && Step(scrub, text[..i]) && forall h: nat, n: nat :: !UrlAt(text, 0, h, n)
    ensures scrub(text) == [text[0]] + scrub(text[1..])
    ensures scrub(text[..i]) == [text[0]] + scrub(text[1..][..i - 1])
  {
    forall h: nat, n: nat ensures !UrlAt(text[..i], 0, h, n) {
      if h + n < i { UrlBefore(text, i, 0, h, n); }
    }
    assert text[..i][1..] == text[1..][..i - 1];
  }

  lemma FrontScrubbed(scrub: string -> string, text: string, i: nat, h: nat, n: nat)
    requires UrlAt(text, 0, h, n) && h + n < i <= |text| && Step(scrub, text) && Step(scrub, text[..i])
    ensures scrub(text) == (text[..h] + "***@") + scrub(text[h + n + 1..])
    ensures scrub(text[..i]) == (text[..h] + "***@") + scrub(text[h + n + 1..][..i - h - n - 1])
  {
    UrlBefore(text, i, 0, h, n);
    assert text[..i][..h] == text[..h];
    assert text[..i][h + n + 1..] == text[h + n + 1..][..i - h - n - 1];
  }

  lemma CutAtFront(scrub: string -> string, text: string, h: nat, n: nat)
    requires Step(scrub, text) && Step(scrub, text[..0]) && UrlAt(text, 0, h, n)
    ensures scrub(text) == scrub(text[..0]) + (text[0..0 + h] + "***@" + scrub(text[0 + h + n + 1..]))
  {
    assert text[..0] == "" && text[0..0 + h] == text[..h];
  }

  /** A scrub from left to right cuts at any URL: what precedes and what follows it are scrubbed by themselves. */
  lemma {:induction false} Cuts(scrub: string -> string, text: string, i: nat, h: nat, n: nat)
    requires (forall s: string :: Step(scrub, s)) && UrlAt(text, i, h, n)
    ensures scrub(text) == scrub(text[..i]) + (text[i..i + h] + "***@" + scrub(text[i + h + n + 1..]))
    decreases i, 0
  {
    if i == 0 {
      CutAtFront(scrub, text, h, n);
    } else if h0: nat, n0: nat :| UrlAt(text, 0, h0, n0) {
      CutsPastUrl(scrub, text, i, h, n, h0, n0);
    } else {
      CutsPastChar(scrub, text, i, h, n);
    }
  }

  lemma CutsPastChar(scrub: string -> string, text: string, i: nat, h: nat, n: nat)
    requires (forall s: string :: Step(scrub, s)) && UrlAt(text, i, h, n) && i > 0
    requires forall h: nat, n: nat :: !UrlAt(text, 0, h, n)
    ensures scrub(text) == scrub(text[..i]) + (text[i..i + h] + "***@" + scrub(text[i + h + n + 1..]))
    decreases i - 1, 2
  {
    FrontKept(scrub, text, i);
    CutsFrom(scrub, text, [text[0]], 1, i, h, n);
  }

  lemma CutsPastUrl(scrub: string -> string, text: string, i: nat, h: nat, n: nat, h0: nat, n0: nat)
    requires (forall s: string :: Step(scrub, s)) && UrlAt(text, i, h, n) && UrlAt(text, 0, h0, n0) && i > 0
    ensures scrub(text) == scrub(text[..i]) + (text[i..i + h] + "***@" + scrub(text[i + h + n + 1..]))
    decreases i - 1, 2
  {
    EndsBeforeScheme(text, 0, h0, n0, i, h);
    FrontScrubbed(scrub, text, i, h0, n0);
    CutsFrom(scrub, text, text[..h0] + "***@", h0 + n0 + 1, i, h, n);
  }

  lemma CutsFrom(scrub: string -> string, text: string, front: string, lo: nat, i: nat, h: nat, n: nat)
    requires (forall s: string :: Step(scrub, s)) && UrlAt(text, i, h, n) && 0 < lo <= i
    requires scrub(text) == front + scrub(text[lo..]) && scrub(text[..i]) == front + scrub(text[lo..][..i - lo])
    ensures scrub(text) == scrub(text[..i]) + (text[i..i + h] + "***@" + scrub(text[i + h + n + 1..]))
    decreases i - lo, 1
  {
    CutMoves(text, lo, i, h, n);
    Cuts(scrub, text[lo..], i - lo, h, n);
    Assoc(front, scrub(text[lo..][..i - lo]), text[i..i + h] + "***@" + scrub(text[i + h + n + 1..]));
  }

  lemma Assoc(a: string, b: string, c: string)
    ensures a + (b + c) == (a + b) + c
  {
  }

  lemma CutMoves(text: string, lo: nat, i: nat, h: nat, n: nat)
    requires lo <= i && UrlAt(text, i, h, n)
    ensures UrlAt(text[lo..], i - lo, h, n)
    ensures text[lo..][i - lo..i - lo + h] == text[i..i + h] && text[lo..][i - lo + h + n + 1..] == text[i + h + n + 1..]
  {
    UrlAfter(text, lo, i, h, n);
    SliceOfSlice(text, lo, |text|, i, i + h);
    SliceOfSlice(text, lo, |text|, i + h + n + 1, |text|);
    assert text[lo..|text|] == text[lo..];
  }

  // ---- What hiding a token does to the URLs -----------------------------------------------

  lemma OccursLater(text: string, pat: string, lo: nat, i: nat)
    requires lo <= |text|
    ensures OccursAt(text[lo..], pat, i) <==> OccursAt(text, pat, lo + i)
  {
    if lo + i + |pat| <= |text| {
      OccursInside(text, pat, lo, |text|, lo + i);
      assert text[lo..|text|] == text[lo..];
    }
  }

  lemma {:induction false} IndexLater(text: string, pat: string, lo: nat, from: nat)
    requires lo <= from <= |text|
    ensures IndexOf(text, pat, from) == match IndexOf(text[lo..], pat, from - lo) case None => None case Some(j) => Some(lo + j)
    decreases |text| - from
  {
    OccursLater(text, pat, lo, from - lo);
    if from < |text| {
      IndexLater(text, pat, lo, from + 1);
    }
  }

  lemma HideNothing(text: string, pat: string)
    requires pat != "" && IndexOf(text, pat, 0).None?
    ensures Hide(text, pat) == text
  {
    assert Split(text, pat) == [text];
  }

  lemma HideFirst(text: string, pat: string, i: nat)
    requires pat != "" && IndexOf(text, pat, 0) == Some(i)
    ensures Hide(text, pat) == text[..i] + STARS + Hide(text[i + |pat|..], pat)
  {
    var pieces, others := Split(text, pat), Split(text[i + |pat|..], pat);
    assert pieces == [text[..i]] + others && pieces[0] == text[..i] && pieces[1..] == others;
    assert |pieces| > 1;
  }

  /** One step of hiding: the text up to the first token, stars, and what hiding makes of the rest. */
  ghost predicate HideStep(mask: string -> string, token: string, text: string) {
    match IndexOf(text, token, 0)
    case None => mask(text) == text
    case Some(i) => mask(text) == text[..i] + STARS + mask(text[i + |token|..])
  }

  function Hider(token: string): string -> string
    requires token != ""
  {
    (text: string) => Hide(text, token)
  }

  lemma HideSteps(token: string, text: string)
    requires token != ""
    ensures HideStep(Hider(token), token, text)
  {
    match IndexOf(text, token, 0)
    case None =>
      HideNothing(text, token);
    case Some(i) =>
      HideFirst(text, token, i);
  }

  lemma SlicesLater(text: string, at: nat, i: nat, n: nat)
    requires at + i + n <= |text|
    ensures text[at..][..i] == text[at..at + i] && text[at..][i + n..] == text[at + i + n..]
  {
  }

  /** The same step from a place inside a text. */
  ghost predicate HidesFrom(mask: string -> string, token: string, text: string, at: nat)
    requires at <= |text|
  {
    match IndexOf(text, token, at)
    case None => mask(text[at..]) == text[at..]
    case Some(j) => mask(text[at..]) == text[at..j] + STARS + mask(text[j + |token|..])
  }

  lemma HideGoesOn(mask: string -> string, token: string, text: string, at: nat)
    requires at <= |text| && HideStep(mask, token, text[at..])
    ensures HidesFrom(mask, token, text, at)
  {
    IndexLater(text, token, at, at);
    if IndexOf(text, token, at).Some? {
      SlicesLater(text, at, IndexOf(text, token, at).value - at, |token|);
    }
  }

  lemma PlainJoin(text: string, lo: nat, mid: nat, hi: nat)
    requires lo <= mid <= hi <= |text|
    ensures Plain(text[lo..hi]) <==> Plain(text[lo..mid]) && Plain(text[mid..hi])
  {
    PlainText(text, lo, hi);
    PlainText(text, lo, mid);
    PlainText(text, mid, hi);
  }

  /**
   * From `lo` on, userinfo characters lead up to the token at `b`, and from the token at `c` on they lead to the
   * at-sign at `e`; if these are two places, `m` is the place of the second token.
   */
  ghost predicate Crossing(text: string, token: string, lo: nat, b: nat, m: nat, c: nat, e: nat) {
    && lo <= b <= c && c + |token| <= e < |text| && text[e] == '@'
    && OccursAt(text, token, b) && OccursAt(text, token, c)
    && Plain(text[lo..b]) && Plain(text[c + |token|..e])
    && (b < c ==> b + |token| <= m <= c && OccursAt(text, token, m) && Plain(text[b + |token|..m]))
    && (Plain(token) ==> Plain(text[lo..e]))
  }

  /** One more token in front. */
  lemma CrossingBefore(text: string, token: string, lo: nat, j: nat, b: nat, m: nat, c: nat, e: nat)
    requires lo <= j && OccursAt(text, token, j) && Plain(text[lo..j]) && Crossing(text, token, j + |token|, b, m, c, e)
    ensures Crossing(text, token, lo, j, b, c, e)
  {
    if Plain(token) {
      assert text[j..j + |token|] == token;
      PlainJoin(text, lo, j, j + |token|);
      PlainJoin(text, lo, j + |token|, e);
    }
  }

  lemma CrossingOnce(text: string, token: string, lo: nat, j: nat, e: nat)
    requires lo <= j && OccursAt(text, token, j) && Plain(text[lo..j]) && j + |token| <= e < |text|
    requires Plain(text[j + |token|..e]) && text[e] == '@'
    ensures Crossing(text, token, lo, j, j, j, e)
  {
    if Plain(token) {
      assert text[j..j + |token|] == token;
      PlainJoin(text, lo, j, j + |token|);
      PlainJoin(text, lo, j + |token|, e);
    }
  }

  /** How the text in front of an at-sign left by hiding came about: copied, or across tokens. */
  datatype Way = Copied | Across(b: nat, m: nat, c: nat, e: nat)

  ghost predicate Led(text: string, token: string, at: nat, hidden: string, n: nat, way: Way)
    requires n <= |hidden|
  {
    match way
    case Copied => at + n < |text| && text[at..at + n] == hidden[..n] && text[at + n] == '@'
    case Across(b, m, c, e) => Crossing(text, token, at, b, m, c, e)
  }

  /** A run that reaches the stars goes on behind them. */
  lemma AfterStars(front: string, rest: string, n: nat)
    requires |front| <= n < |front + STARS + rest|
    requires Plain((front + STARS + rest)[..n]) && (front + STARS + rest)[n] == '@'
    ensures n >= |front| + 3 && n - |front| - 3 < |rest| && rest[n - |front| - 3] == '@'
    ensures Plain(front) && Plain(rest[..n - |front| - 3])
  {
    var out := front + STARS + rest;
    assert forall k | |front| <= k < |front| + 3 :: out[k] == '*';
    assert out[..|front|] == front && out[|front| + 3..n] == rest[..n - |front| - 3];
    assert out[0..n] == out[..n] && out[0..|front|] == out[..|front|];
    PlainJoin(out, 0, |front|, n);
    PlainJoin(out, |front|, |front| + 3, n);
  }

  lemma LedAcross(text: string, token: string, lo: nat, j: nat, hidden: string, n: nat, way: Way) returns (way': Way)
    requires token != "" && n < |hidden| && Plain(hidden[..n]) && lo <= j && OccursAt(text, token, j) && Plain(text[lo..j])
    requires Led(text, token, j + |token|, hidden, n, way)
    ensures way'.Across? && Crossing(text, token, lo, way'.b, way'.m, way'.c, way'.e) && way'.b == j
    ensures way'.c == j ==> way.Copied? && way'.e == j + |token| + n
  {
    match way
    case Copied =>
      CrossingOnce(text, token, lo, j, j + |token| + n);
      way' := Across(j, j, j, j + |token| + n);
    case Across(b, m, c, e) =>
      CrossingBefore(text, token, lo, j, b, m, c, e);
      way' := Across(j, b, c, e);
  }

  /** Userinfo characters and an at-sign at the front of what hiding leaves were there before, or span tokens. */
  lemma {:induction false} RunBefore(mask: string -> string, token: string, text: string, at: nat, n: nat) returns (way: Way)
    requires token != "" && at <= |text| && forall i | 0 <= i <= |text| :: HidesFrom(mask, token, text, i)
    requires n < |mask(text[at..])| && Plain(mask(text[at..])[..n]) && mask(text[at..])[n] == '@'
    ensures Led(text, token, at, mask(text[at..]), n, way)
    decreases |text| - at
  {
    assert HidesFrom(mask, token, text, at);
    match IndexOf(text, token, at)
    case None =>
      way := Copied;
    case Some(j) =>
      if j <= at + n {
        AfterStars(text[at..j], mask(text[j + |token|..]), n);
        way := RunBefore(mask, token, text, j + |token|, at + n - j - 3);
        way := LedAcross(text, token, at, j, mask(text[j + |token|..]), at + n - j - 3, way);
      } else {
        CopiedFront(text, at, j, mask(text[j + |token|..]), n);
        way := Copied;
      }
  }

  lemma CopiedFront(text: string, at: nat, j: nat, rest: string, n: nat)
    requires at + n < j <= |text|
    ensures (text[at..j] + STARS + rest)[..n] == text[at..at + n] && (text[at..j] + STARS + rest)[n] == text[at + n]
  {
  }

  /** Where a URL that starts in front of the stars has its parts. */
  lemma UrlOverStars(front: string, rest: string, i: nat, h: nat, n: nat)
    requires UrlAt(front + STARS + rest, i, h, n) && i < |front| + 3 && i + h + n >= |front|
    ensures i + h <= |front| && SchemeAt(front, i, h)
    ensures var k := |front| - i - h; n >= k + 3 && n - k - 3 < |rest| && Plain(front[i + h..]) && Plain(rest[..n - k - 3]) && rest[n - k - 3] == '@'
    ensures i + h == |front| && n == 3 ==> (front + STARS + rest)[i + h..i + h + n] == STARS
  {
    var out := front + STARS + rest;
    assert forall k | |front| <= k < |front| + 3 :: out[k] == '*';
    SchemeText(out, i, h);
    assert out[|front|] == '*';
    assert i + h <= |front|;
    assert out[i..i + h] == front[i..i + h];
    assert out[i + h..] == front[i + h..] + STARS + rest;
    assert out[i + h..][..n] == out[i + h..i + h + n] && out[i + h..][n] == out[i + h + n];
    AfterStars(front[i + h..], rest, n);
  }

  lemma UrlPastStars(front: string, rest: string, i: nat, h: nat, n: nat)
    requires UrlAt(front + STARS + rest, i, h, n) && i >= |front| + 3
    ensures UrlAt(rest, i - |front| - 3, h, n)
    ensures rest[i - |front| - 3 + h..i - |front| - 3 + h + n] == (front + STARS + rest)[i + h..i + h + n]
  {
    UrlAfter(front + STARS + rest, |front| + 3, i, h, n);
    assert (front + STARS + rest)[|front| + 3..] == rest;
  }

  lemma UrlAheadOfStars(front: string, rest: string, i: nat, h: nat, n: nat)
    requires UrlAt(front + STARS + rest, i, h, n) && i + h + n < |front|
    ensures UrlAt(front, i, h, n) && front[i + h..i + h + n] == (front + STARS + rest)[i + h..i + h + n]
  {
    UrlBefore(front + STARS + rest, |front|, i, h, n);
    assert (front + STARS + rest)[..|front|] == front;
  }

  lemma SchemeWithin(text: string, lo: nat, hi: nat, i: nat, h: nat)
    requires lo <= i && i + h <= hi <= |text|
    ensures SchemeAt(text, i, h) <==> SchemeAt(text[lo..hi], i - lo, h)
  {
    SliceOfSlice(text, lo, hi, i, i + h);
    assert i - lo + h == i + h - lo;
  }

  /** Where the scheme and the userinfo `run` of a URL left by hiding come from. */
  ghost predicate Explained(text: string, token: string, h: nat, run: string, a: nat, way: Way) {
    match way
    case Copied => UrlAt(text, a, h, |run|) && text[a + h..a + h + |run|] == run
    case Across(b, m, c, e) =>
      && SchemeAt(text, a, h) && Crossing(text, token, a + h, b, m, c, e)
      && (a + h == b == c && e == c + |token| ==> run == STARS)
  }

  lemma ExplainedAhead(text: string, token: string, at: nat, j: nat, rest: string, i: nat, h: nat, n: nat)
    requires at <= j <= |text| && UrlAt(text[at..j] + STARS + rest, i, h, n) && i + h + n < j - at
    ensures Explained(text, token, h, (text[at..j] + STARS + rest)[i + h..i + h + n], at + i, Copied)
  {
    UrlAheadOfStars(text[at..j], rest, i, h, n);
    UrlWithin(text, at, j, at + i, h, n);
  }

  /** The scheme and what follows it up to the token, at their places in the text. */
  lemma PlacedInText(text: string, at: nat, j: nat, i: nat, h: nat)
    requires at <= j <= |text| && i + h <= j - at && SchemeAt(text[at..j], i, h) && Plain(text[at..j][i + h..])
    ensures SchemeAt(text, at + i, h) && Plain(text[at + i + h..j])
  {
    SchemeWithin(text, at, j, at + i, h);
    SliceOfSlice(text, at, j, at + i + h, j);
    assert text[at..j][i + h..j - at] == text[at..j][i + h..];
  }

  lemma ExplainedAcross(mask: string -> string, token: string, text: string, at: nat, j: nat, i: nat, h: nat, n: nat)
      returns (way: Way)
    requires token != "" && forall k | 0 <= k <= |text| :: HidesFrom(mask, token, text, k)
    requires at <= j && OccursAt(text, token, j) && UrlAt(text[at..j] + STARS + mask(text[j + |token|..]), i, h, n)
    requires i < j - at + 3 && i + h + n >= j - at
    ensures way.Across?
    ensures Explained(text, token, h, (text[at..j] + STARS + mask(text[j + |token|..]))[i + h..i + h + n], at + i, way)
  {
    var rest := mask(text[j + |token|..]);
    UrlOverStars(text[at..j], rest, i, h, n);
    PlacedInText(text, at, j, i, h);
    var left := n - (j - at - i - h) - 3;
    way := RunBefore(mask, token, text, j + |token|, left);
    way := LedAcross(text, token, at + i + h, j, rest, left, way);
  }

  lemma ExplainedCopy(text: string, token: string, at: nat, i: nat, h: nat, n: nat)
    requires at <= |text| && UrlAt(text[at..], i, h, n)
    ensures Explained(text, token, h, text[at..][i + h..i + h + n], at + i, Copied)
  {
    UrlAfter(text, at, at + i, h, n);
  }

  /** Every way a URL of what hiding leaves can come about gives it stars. */
  ghost predicate NeverBare(text: string, token: string) {
    forall h: nat, run: string, a: nat, way: Way | Explained(text, token, h, run, a, way) :: run == STARS
  }

  lemma {:induction false} HiddenStarred(mask: string -> string, token: string, text: string, at: nat)
    requires token != "" && at <= |text| && forall k | 0 <= k <= |text| :: HidesFrom(mask, token, text, k)
    requires NeverBare(text, token)
    ensures AllStarred(mask(text[at..]))
    decreases |text| - at
  {
    assert HidesFrom(mask, token, text, at);
    if IndexOf(text, token, at).Some? {
      HiddenStarred(mask, token, text, IndexOf(text, token, at).value + |token|);
    }
    forall i: nat, h: nat, n: nat | UrlAt(mask(text[at..]), i, h, n) ensures mask(text[at..])[i + h..i + h + n] == STARS {
      UrlStarred(mask, token, text, at, i, h, n);
    }
  }

  lemma UrlStarred(mask: string -> string, token: string, text: string, at: nat, i: nat, h: nat, n: nat)
    requires token != "" && at <= |text| && forall k | 0 <= k <= |text| :: HidesFrom(mask, token, text, k)
    requires NeverBare(text, token) && UrlAt(mask(text[at..]), i, h, n)
    requires IndexOf(text, token, at).Some? ==> AllStarred(mask(text[IndexOf(text, token, at).value + |token|..]))
    ensures mask(text[at..])[i + h..i + h + n] == STARS
  {
    assert HidesFrom(mask, token, text, at);
    match IndexOf(text, token, at)
    case None =>
      ExplainedCopy(text, token, at, i, h, n);
    case Some(j) =>
      var rest := mask(text[j + |token|..]);
      if i >= j - at + 3 {
        UrlPastStars(text[at..j], rest, i, h, n);
      } else if i + h + n < j - at {
        ExplainedAhead(text, token, at, j, rest, i, h, n);
      } else {
        var way := ExplainedAcross(mask, token, text, at, j, i, h, n);
      }
  }

  // ---- Which tokens bring userinfo back ---------------------------------------------------

  predicate FewStars(w: string) { |w| <= 3 && forall k | 0 <= k < |w| :: w[k] == '*' }

  /** Stars at most lead up to the token's first blocker, if that is an at-sign. */
  predicate MayEnter(token: string) {
    forall k | 0 <= k < |token| && token[k] == '@' && Plain(token[..k]) :: FewStars(token[..k])
  }

  /** Stars at most follow a scheme that only userinfo characters follow. */
  ghost predicate MayLeave(token: string) {
    forall i: nat, h: nat | SchemeAt(token, i, h) && Plain(token[i + h..]) :: FewStars(token[i + h..])
  }

  /** Three stars at both ends leave nothing to be added. */
  ghost predicate Tight(token: string) {
    OccursAt(token, "***@", 0) && exists i: nat, h: nat :: SchemeAt(token, i, h) && token[i + h..] == STARS
  }

  /** No URL of either scheme can be left with its slashes, or its at-sign, once these are hidden. */
  const URL_MARKS := {"/", "//", ":/", "://", "@"}

  /** The tokens whose removal can leave a URL with userinfo other than three stars. */
  ghost predicate Disturbs(token: string) {
    if Plain(token) then token == "*" || token == "**"
    else token !in URL_MARKS && AllStarred(token) && MayEnter(token) && MayLeave(token) && !Tight(token)
  }

  lemma StarsAre(w: string)
    requires w == STARS
    ensures |w| == 3 && forall k | 0 <= k < 3 :: w[k] == '*'
  {
  }

  /** Userinfo of a starred text. */
  lemma StarredUrl(text: string, a: nat, h: nat, e: nat)
    requires AllStarred(text) && SchemeAt(text, a, h) && a + h < e < |text| && Plain(text[a + h..e]) && text[e] == '@'
    ensures text[a + h..e] == STARS && e == a + h + 3
  {
    assert UrlAt(text, a, h, e - a - h);
    assert text[a + h..a + h + (e - a - h)] == text[a + h..e];
    StarsAre(text[a + h..e]);
  }

  lemma OccursSlice(text: string, token: string, b: nat, lo: nat, hi: nat)
    requires OccursAt(text, token, b) && lo <= hi <= |token|
    ensures text[b + lo..b + hi] == token[lo..hi]
  {
    assert forall k | lo <= k < hi :: text[b + k] == token[k];
  }

  lemma TokenStarred(text: string, token: string, b: nat)
    requires AllStarred(text) && OccursAt(text, token, b)
    ensures AllStarred(token)
  {
    OccursSlice(text, token, b, 0, |token|);
    assert text[b..b + |token|] == token;
    forall i: nat, h: nat, n: nat | UrlAt(token, i, h, n) ensures token[i + h..i + h + n] == STARS {
      UrlWithin(text, b, b + |token|, b + i, h, n);
    }
  }

  lemma SchemeInToken(text: string, token: string, b: nat, i: nat, h: nat)
    requires OccursAt(text, token, b) && SchemeAt(token, i, h)
    ensures SchemeAt(text, b + i, h)
  {
    OccursSlice(text, token, b, i, i + h);
  }

  /** A plain token between a scheme and an at-sign is all of the three stars, or one of them, or two. */
  lemma PlainBetween(text: string, token: string, a: nat, h: nat, b: nat, m: nat, c: nat, e: nat)
    requires AllStarred(text) && token != "" && Plain(token) && SchemeAt(text, a, h) && Crossing(text, token, a + h, b, m, c, e)
    ensures (a + h == b == c && e == c + |token|) || token == "*" || token == "**"
  {
    StarredUrl(text, a, h, e);
    OccursSlice(text, token, b, 0, |token|);
    assert forall k | b <= k < b + |token| :: text[k] == text[a + h..e][k - a - h];
    assert forall k | 0 <= k < |token| :: token[k] == text[b + k] == '*';
    if b < c { assert |token| == 1; }
  }

  lemma Enters(text: string, token: string, a: nat, h: nat, b: nat, k: nat)
    requires AllStarred(text) && SchemeAt(text, a, h) && a + h <= b && OccursAt(text, token, b) && Plain(text[a + h..b])
    requires k < |token| && token[k] == '@' && Plain(token[..k])
    ensures FewStars(token[..k]) && (k == 3 ==> b == a + h)
  {
    OccursSlice(text, token, b, 0, k);
    assert token[0..k] == token[..k] && text[b + k] == token[k];
    PlainJoin(text, a + h, b, b + k);
    if a + h < b + k {
      StarredUrl(text, a, h, b + k);
      assert forall q | b <= q < b + k :: text[q] == text[a + h..b + k][q - a - h];
      assert forall q | 0 <= q < k :: token[..k][q] == text[b + q];
    }
  }

  lemma LeavesBy(text: string, token: string, c: nat, e: nat, i: nat, h: nat)
    requires AllStarred(text) && OccursAt(text, token, c) && c + |token| <= e < |text| && Plain(text[c + |token|..e]) && text[e] == '@'
    requires SchemeAt(token, i, h) && Plain(token[i + h..])
    ensures FewStars(token[i + h..]) && (|token| - i - h == 3 ==> e == c + |token|)
  {
    OccursSlice(text, token, c, i + h, |token|);
    SchemeInToken(text, token, c, i, h);
    assert token[i + h..|token|] == token[i + h..];
    PlainJoin(text, c + i + h, c + |token|, e);
    if c + i + h < e {
      StarredUrl(text, c + i, h, e);
      assert forall q | c + i + h <= q < e :: text[q] == text[c + i + h..e][q - c - i - h];
      var tail := token[i + h..];
      assert forall q | 0 <= q < |tail| :: tail[q] == token[i + h + q] == text[c + (i + h + q)];
    }
  }

  /** Two tokens in a row with stars at both ends would make six stars of three. */
  lemma NotTwice(text: string, token: string, b: nat, m: nat, i: nat, h: nat)
    requires AllStarred(text) && OccursAt(text, token, b) && OccursAt(text, token, m)
    requires OccursAt(token, "***@", 0) && SchemeAt(token, i, h) && token[i + h..] == STARS
    ensures b + |token| <= m ==> !Plain(text[b + |token|..m])
  {
    StarsAre(token[i + h..]);
    if b + |token| <= m && Plain(text[b + |token|..m]) {
      LeavesOnto(text, token, b, m, i, h);
      StarredUrl(text, b + i, h, m + 3);
    }
  }

  lemma StarsInFront(text: string, m: nat)
    requires OccursAt(text, "***@", m)
    ensures m + 3 < |text| && text[m..m + 3] == STARS && Plain(text[m..m + 3]) && text[m + 3] == '@'
  {
    assert text[m + 0] == "***@"[0] && text[m + 1] == "***@"[1] && text[m + 2] == "***@"[2] && text[m + 3] == "***@"[3];
  }

  lemma LeavesOnto(text: string, token: string, b: nat, m: nat, i: nat, h: nat)
    requires OccursAt(text, token, b) && OccursAt(text, token, m) && b + |token| <= m
    requires Plain(text[b + |token|..m]) && OccursAt(token, "***@", 0) && SchemeAt(token, i, h) && token[i + h..] == STARS
    ensures SchemeAt(text, b + i, h) && m + 3 < |text| && Plain(text[b + i + h..m + 3]) && text[m + 3] == '@'
  {
    SchemeInToken(text, token, b, i, h);
    OccursSlice(text, token, b, i + h, |token|);
    assert token[i + h..|token|] == STARS;
    OccursWithin(text, token, "***@", m, 0);
    StarsInFront(text, m);
    PlainJoin(text, b + i + h, b + |token|, m);
    PlainJoin(text, b + i + h, m, m + 3);
  }

  lemma TightEnds(text: string, token: string, a: nat, h: nat, b: nat, m: nat, c: nat, e: nat)
    requires AllStarred(text) && Tight(token) && SchemeAt(text, a, h) && Crossing(text, token, a + h, b, m, c, e)
    ensures a + h == b == c && e == c + |token|
  {
    var i: nat, h': nat :| SchemeAt(token, i, h') && token[i + h'..] == STARS;
    StarsAre(token[i + h'..]);
    StarsInFront(token, 0);
    assert token[..3] == token[0..3];
    Enters(text, token, a, h, b, 3);
    LeavesBy(text, token, c, e, i, h');
    if b < c { NotTwice(text, token, b, m, i, h'); }
  }

  lemma CrossingIsTight(text: string, token: string, a: nat, h: nat, b: nat, m: nat, c: nat, e: nat)
    requires AllStarred(text) && token != "" && !Disturbs(token) && token !in URL_MARKS
    requires SchemeAt(text, a, h) && Crossing(text, token, a + h, b, m, c, e)
    ensures a + h == b == c && e == c + |token|
  {
    if Plain(token) {
      PlainBetween(text, token, a, h, b, m, c, e);
    } else {
      TokenStarred(text, token, b);
      forall k | 0 <= k < |token| && token[k] == '@' && Plain(token[..k]) ensures FewStars(token[..k]) {
        Enters(text, token, a, h, b, k);
      }
      forall i: nat, h': nat | SchemeAt(token, i, h') && Plain(token[i + h'..]) ensures FewStars(token[i + h'..]) {
        LeavesBy(text, token, c, e, i, h');
      }
      TightEnds(text, token, a, h, b, m, c, e);
    }
  }

  /** In a starred text a token that disturbs nothing brings no userinfo back. */
  lemma NothingBare(text: string, token: string)
    requires AllStarred(text) && token != "" && !Disturbs(token) && token !in URL_MARKS
    ensures NeverBare(text, token)
  {
    forall h: nat, run: string, a: nat, way: Way | Explained(text, token, h, run, a, way) ensures run == STARS {
      match way
      case Copied =>
      case Across(b, m, c, e) => CrossingIsTight(text, token, a, h, b, m, c, e);
    }
  }

  // ---- The output of redaction ------------------------------------------------------------

  lemma ScrubbedIsStarred(text: string)
    ensures AllStarred(ScrubUserinfo(text))
  {
    var out := ScrubUserinfo(text);
    UserinfoScrubbed(text);
    forall i: nat, h: nat, n: nat | UrlAt(out, i, h, n) ensures out[i + h..i + h + n] == STARS {
      assert StarredAt(out[i..]);
      UrlMatches(out, i, h, n);
      SliceLater(out, i, h, h + n);
    }
  }

  lemma SliceLater(text: string, lo: nat, a: nat, b: nat)
    requires lo <= |text| && a <= b <= |text| - lo
    ensures text[lo..][a..b] == text[lo + a..lo + b]
  {
    SliceOfSlice(text, lo, |text|, lo + a, lo + b);
    assert text[lo..|text|] == text[lo..];
  }

  lemma ColonSlashes(text: string, i: nat, h: nat, n: nat)
    requires UrlAt(text, i, h, n)
    ensures forall mark | mark in URL_MARKS :: Contains(text, mark)
  {
    var q := i + h - 3;
    SchemeChars(text[i..i + h]);
    assert text[q] == text[i..i + h][h - 3] && text[q + 1] == text[i..i + h][h - 2] && text[q + 2] == text[i..i + h][h - 1];
    assert OccursAt(text, "/", q + 1) && OccursAt(text, "//", q + 1) && OccursAt(text, ":/", q) && OccursAt(text, "://", q);
    assert OccursAt(text, "@", i + h + n);
  }

  /** With the slashes or the at-signs hidden there is no URL with userinfo. */
  lemma MarksGone(text: string, token: string)
    requires token in URL_MARKS
    ensures token != "" && AllStarred(Hide(text, token))
  {
    StarFreeIsSafe(token);
    HideHides(text, token, token);
    forall i: nat, h: nat, n: nat | UrlAt(Hide(text, token), i, h, n) ensures false {
      ColonSlashes(Hide(text, token), i, h, n);
    }
  }

  /** Hiding a token that disturbs nothing keeps a text starred. */
  lemma HideKeepsStarred(text: string, token: string)
    requires AllStarred(text) && token != "" && !Disturbs(token)
    ensures AllStarred(Hide(text, token))
  {
    if token in URL_MARKS {
      MarksGone(text, token);
    } else {
      NothingBare(text, token);
      forall k | 0 <= k <= |text| ensures HidesFrom(Hider(token), token, text, k) {
        HideSteps(token, text[k..]);
        HideGoesOn(Hider(token), token, text, k);
      }
      HiddenStarred(Hider(token), token, text, 0);
      assert text[0..] == text;
    }
  }

  lemma HexPlain(digit: nat)
    requires digit < 16
    ensures HEX[digit] != '@' && HEX[digit] != '/' && !Space(HEX[digit])
  {
    assert '0' <= HEX[digit] <= '9' || 'A' <= HEX[digit] <= 'F';
  }

  lemma PercentPlain(byte: nat)
    requires byte < 256
    ensures Plain(Percent(byte)) && Percent(byte)[0] == '%'
  {
    HexPlain(byte / 16);
    HexPlain(byte % 16);
  }

  lemma UnreservedPlain(c: char)
    requires Unreserved(c)
    ensures Plain([c])
  {
  }

  lemma {:induction false} PercentsPlain(bytes: seq<nat>)
    requires forall i | 0 <= i < |bytes| :: bytes[i] < 256
    ensures Plain(Percents(bytes)) && (bytes != [] ==> Percents(bytes)[0] == '%')
  {
    if bytes != [] {
      PercentPlain(bytes[0]);
      PercentsPlain(bytes[1..]);
      PlainConcat(Percent(bytes[0]), Percents(bytes[1..]));
    }
  }

  lemma EncodeCharPlain(c: char)
    ensures Plain(EncodeChar(c)) && EncodeChar(c) != "" && (EncodeChar(c) == [c] || EncodeChar(c)[0] == '%')
  {
    if Unreserved(c) {
      UnreservedPlain(c);
    } else {
      PercentsPlain(Utf8(c as int));
    }
  }

  lemma PlainConcat(a: string, b: string)
    requires Plain(a) && Plain(b)
    ensures Plain(a + b)
  {
  }

  /** An encoded token has no blocker, and a percent sign where it differs from the token. */
  lemma {:induction false} EncodePlain(s: string)
    ensures Plain(Encode(s)) && (Encode(s) == s || '%' in Encode(s))
  {
    if s != "" {
      EncodePlain(s[1..]);
      EncodeCharPlain(s[0]);
      EncodeSplit(s, EncodeChar(s[0]), Encode(s[1..]));
    }
  }

  lemma EncodeSplit(s: string, head: string, tail: string)
    requires s != "" && Plain(head) && Plain(tail) && head != ""
    requires (head == [s[0]] || head[0] == '%') && (tail == s[1..] || '%' in tail)
    ensures Plain(head + tail) && (head + tail == s || '%' in head + tail)
  {
    PlainConcat(head, tail);
    assert [s[0]] + s[1..] == s;
    assert head[0] == '%' ==> (head + tail)[0] == '%';
  }

  lemma EncodedDisturbsNothing(token: string)
    requires token != "" && Encode(token) != token
    ensures Encode(token) != "" && !Disturbs(Encode(token))
  {
    EncodePlain(token);
  }

  /** Unless the token is one of those that disturb, every URL that redaction leaves has stars for its userinfo. */
  lemma RedactedStarred(text: string, token: Option<string>)
    requires token.Some? && token.value != "" ==> !Disturbs(token.value)
    ensures AllStarred(RedactSecrets(text, token))
  {
    ScrubbedIsStarred(text);
    if token.Some? && token.value != "" {
      HideKeepsStarred(ScrubUserinfo(text), token.value);
      if Encode(token.value) != token.value {
        EncodedDisturbsNothing(token.value);
        HideKeepsStarred(Hide(ScrubUserinfo(text), token.value), Encode(token.value));
      }
    }
  }

  // ---- A text for every token that disturbs -----------------------------------------------

  predicate Filler(w: string) { forall k | 0 <= k < |w| :: w[k] == 'a' || w[k] == 'b' || w[k] == '*' }

  /** A URL whose userinfo would run from `lead` over the token to `trail` if the token were not there. */
  datatype Probe = Probe(scheme: string, lead: string, token: string, trail: string) {
    function Text(): string { scheme + lead + token + trail + "@" }

    function At(): nat { |scheme| + |lead| }

    function End(): nat { |scheme| + |lead| + |token| + |trail| }

    predicate Proper() {
      scheme in {"http://", "HTTP://"} && Filler(lead) && Filler(trail) && token != ""
    }
  }

  lemma ProbeParts(p: Probe)
    requires p.Proper()
    ensures |p.scheme| == 7 && |p.Text()| == p.End() + 1 && p.Text()[p.End()] == '@'
    ensures p.Text()[0..7] == p.scheme && p.Text()[7..p.At()] == p.lead
    ensures p.Text()[p.At()..p.At() + |p.token|] == p.token && p.Text()[p.At() + |p.token|..p.End()] == p.trail
  {
  }

  lemma ProbeChars(p: Probe)
    requires p.Proper()
    ensures |p.scheme| == 7 && |p.Text()| == p.End() + 1
    ensures forall k | 0 <= k < 7 :: p.Text()[k] == p.scheme[k]
    ensures forall k | 7 <= k < p.At() :: p.Text()[k] == p.lead[k - 7]
    ensures forall k | p.At() <= k < p.At() + |p.token| :: p.Text()[k] == p.token[k - p.At()]
    ensures forall k | p.At() + |p.token| <= k < p.End() :: p.Text()[k] == p.trail[k - p.At() - |p.token|]
    ensures p.Text()[p.End()] == '@'
  {
  }

  /** Schemes in the probe: its own, and those inside the token. */
  lemma ProbeSchemes(p: Probe, i: nat, h: nat)
    requires p.Proper() && SchemeAt(p.Text(), i, h)
    ensures (i == 0 && h == 7) || (p.At() <= i && i + h <= p.At() + |p.token| && SchemeAt(p.token, i - p.At(), h))
  {
    var text, b := p.Text(), p.At();
    ProbeChars(p);
    ProbeParts(p);
    SchemeText(text, i, h);
    ProbeSchemeStart(p, i, h);
    if i > 0 {
      SchemeWithin(text, b, b + |p.token|, i, h);
    }
  }

  /** Outside the token only the first character can begin a scheme, and none can end one. */
  lemma ProbeLetters(p: Probe)
    requires p.Proper()
    ensures forall k | 0 < k < p.At() || p.At() + |p.token| <= k < |p.Text()| :: p.Text()[k] != 'h' && p.Text()[k] != 'H'
    ensures p.Text()[p.At() + |p.token|] in {'@', 'a', 'b', '*'}
  {
    var text, b := p.Text(), p.At();
    ProbeChars(p);
    InnerScheme(p.scheme);
    assert text[b + |p.token|] == if p.trail == "" then '@' else p.trail[0];
    assert forall k | 7 <= k < b :: text[k] == p.lead[k - 7];
    assert forall k | b + |p.token| <= k < p.End() :: text[k] == p.trail[k - b - |p.token|];
  }

  lemma ProbeSchemeStart(p: Probe, i: nat, h: nat)
    requires p.Proper() && SchemeAt(p.Text(), i, h)
    ensures (i == 0 && h == 7) || (p.At() <= i && i + h <= p.At() + |p.token|)
  {
    ProbeChars(p);
    ProbeLetters(p);
    SchemeText(p.Text(), i, h);
    if i == 0 {
      ProbeParts(p);
      OwnScheme(p.Text(), p.scheme, h);
    }
  }

  lemma InnerScheme(scheme: string)
    requires scheme in {"http://", "HTTP://"}
    ensures forall k | 0 < k < 7 :: scheme[k] != 'h' && scheme[k] != 'H'
  {
    assert scheme[1] in {'t', 'T'} && scheme[2] in {'t', 'T'} && scheme[3] in {'p', 'P'} && scheme[4] == ':';
    assert scheme[5] == '/' && scheme[6] == '/';
  }

  lemma OwnScheme(text: string, scheme: string, h: nat)
    requires scheme in {"http://", "HTTP://"} && |text| >= 7 && text[..7] == scheme && SchemeAt(text, 0, h)
    ensures h == 7
  {
    var w := text[0..h];
    SchemeChars(w);
    assert scheme[5] == '/' && text[5] == text[..7][5];
    assert h == 8 ==> w[5] == text[5];
  }

  predicate Blocker(c: char) { c == '@' || c == '/' || Space(c) }

  lemma SameEnd(text: string, lo: nat, e: nat, e': nat)
    requires lo <= e < |text| && Plain(text[lo..e]) && Blocker(text[e])
    requires lo <= e' < |text| && Plain(text[lo..e']) && Blocker(text[e'])
    ensures e == e'
  {
    PlainText(text, lo, e);
    PlainText(text, lo, e');
  }

  lemma FillerPlain(w: string)
    requires Filler(w)
    ensures Plain(w)
  {
  }

  lemma LeadThenFront(p: Probe, f: nat)
    requires p.Proper() && f < |p.token| && Plain(p.token[..f])
    ensures |p.Text()| == p.End() + 1 && p.At() + f < p.End() && p.Text()[p.At() + f] == p.token[f]
    ensures p.Text()[7..p.At() + f] == p.lead + p.token[..f] && Plain(p.Text()[7..p.At() + f])
  {
    var text, b := p.Text(), p.At();
    ProbeParts(p);
    ProbeChars(p);
    FillerPlain(p.lead);
    assert text[b..b + f] == p.token[..f];
    SliceJoin(text, 7, b, b + f);
    PlainConcat(p.lead, p.token[..f]);
  }

  /** The probe's own URL ends at the token's first blocker. */
  lemma OwnUrl(p: Probe, f: nat, n: nat)
    requires p.Proper() && f < |p.token| && Plain(p.token[..f]) && Blocker(p.token[f]) && UrlAt(p.Text(), 0, 7, n)
    ensures p.token[f] == '@' && p.Text()[0 + 7..0 + 7 + n] == p.lead + p.token[..f]
  {
    LeadThenFront(p, f);
    SameEnd(p.Text(), 7, 7 + n, p.At() + f);
  }

  lemma BackThenTrail(p: Probe, d: nat)
    requires p.Proper() && d <= |p.token|
    ensures |p.Text()| == p.End() + 1 && p.Text()[p.End()] == '@'
    ensures p.Text()[p.At() + d..p.At() + |p.token|] == p.token[d..]
    ensures p.Text()[p.At() + d..p.End()] == p.token[d..] + p.trail
  {
    var text, b, t := p.Text(), p.At(), p.At() + |p.token|;
    ProbeParts(p);
    SliceOfSlice(text, b, t, b + d, t);
    assert p.token[d..|p.token|] == p.token[d..];
    SliceJoin(text, b + d, t, p.End());
  }

  lemma SliceJoin(text: string, lo: nat, mid: nat, hi: nat)
    requires lo <= mid <= hi <= |text|
    ensures text[lo..hi] == text[lo..mid] + text[mid..hi]
  {
  }

  lemma EndsAlike(text: string, lo: nat, mid: nat, e: nat, e': nat)
    requires lo <= mid <= e < |text| && Plain(text[lo..e]) && text[e] == '@'
    requires mid <= e' < |text| && Plain(text[mid..e']) && text[e'] == '@'
    ensures Plain(text[lo..mid]) && e == e'
  {
    PlainJoin(text, lo, mid, e);
    SameEnd(text, mid, e, e');
  }

  lemma TrailThenAt(p: Probe)
    requires p.Proper()
    ensures p.At() + |p.token| <= p.End() < |p.Text()| && Plain(p.Text()[p.At() + |p.token|..p.End()]) && p.Text()[p.End()] == '@'
  {
    ProbeParts(p);
    FillerPlain(p.trail);
  }

  /** A URL that begins inside the token and leaves it ends at the probe's at-sign. */
  lemma LeavingUrl(p: Probe, i: nat, h: nat, n: nat)
    requires p.Proper() && UrlAt(p.Text(), i, h, n) && p.At() <= i && i + h <= p.At() + |p.token| <= i + h + n
    ensures Plain(p.token[i - p.At() + h..]) && p.Text()[i + h..i + h + n] == p.token[i - p.At() + h..] + p.trail
  {
    TrailThenAt(p);
    EndsAlike(p.Text(), i + h, p.At() + |p.token|, i + h + n, p.End());
    BackThenTrail(p, i - p.At() + h);
  }

  /** What the lead and the trail must be for the probe to be a text that the scrub leaves. */
  ghost predicate Completes(p: Probe, f: nat)
    requires f < |p.token|
  {
    && Plain(p.token[..f]) && Blocker(p.token[f]) && (p.token[f] == '@' ==> p.lead + p.token[..f] == STARS)
    && forall i: nat, h: nat | SchemeAt(p.token, i, h) && Plain(p.token[i + h..]) :: p.token[i + h..] + p.trail == STARS
  }

  lemma InnerUrl(p: Probe, i: nat, h: nat, n: nat)
    requires p.Proper() && AllStarred(p.token) && UrlAt(p.Text(), i, h, n) && p.At() <= i && i + h + n < p.At() + |p.token|
    ensures p.Text()[i + h..i + h + n] == STARS
  {
    ProbeParts(p);
    UrlWithin(p.Text(), p.At(), p.At() + |p.token|, i, h, n);
  }

  lemma ProbeUrl(p: Probe, f: nat, i: nat, h: nat, n: nat)
    requires p.Proper() && AllStarred(p.token) && f < |p.token| && Completes(p, f) && UrlAt(p.Text(), i, h, n)
    ensures p.Text()[i + h..i + h + n] == STARS
  {
    ProbeSchemes(p, i, h);
    if i == 0 {
      OwnUrl(p, f, n);
    } else if i + h + n < p.At() + |p.token| {
      InnerUrl(p, i, h, n);
    } else {
      LeavingUrl(p, i, h, n);
    }
  }

  lemma ProbeStarred(p: Probe, f: nat)
    requires p.Proper() && AllStarred(p.token) && f < |p.token| && Completes(p, f)
    ensures AllStarred(p.Text())
  {
    forall i: nat, h: nat, n: nat | UrlAt(p.Text(), i, h, n) ensures p.Text()[i + h..i + h + n] == STARS {
      ProbeUrl(p, f, i, h, n);
    }
  }

  /** A token whose first blocker is an at-sign cannot occur before its place: there is no at-sign that early. */
  lemma NotEarlierAtSign(p: Probe, f: nat, j: nat)
    requires p.Proper() && f < |p.token| && Plain(p.token[..f]) && p.token[f] == '@' && j < p.At()
    ensures !OccursAt(p.Text(), p.token, j)
  {
    var text, b := p.Text(), p.At();
    ProbeChars(p);
    FillerPlain(p.lead);
    assert forall k | b <= k < b + f :: text[k] == p.token[..f][k - b];
    assert forall k | 0 <= k < 7 :: p.scheme[k] != '@';
    assert j + f < b + f && text[j + f] != '@';
  }

  /** A token that is not found in the scheme cannot begin before its place if the lead repeats a letter it does not end in. */
  lemma NotEarlierLetter(p: Probe, c: char, m: nat, j: nat)
    requires p.Proper() && |p.lead| == |p.token| && (forall k | 0 <= k < |p.lead| :: p.lead[k] == c)
    requires m < |p.token| && p.token[m] != c && (forall k | 0 <= k < m :: p.token[k] == c) && p.token[|p.token| - 1] != c
    requires !Contains(p.scheme, p.token) && j < p.At()
    ensures !OccursAt(p.Text(), p.token, j)
  {
    var text, b, last := p.Text(), p.At(), |p.token| - 1;
    ProbeChars(p);
    if j >= 7 {
      assert j + m < b + m && text[j + m] == c;
    } else if j + last >= 7 {
      assert text[j + last] == c;
    } else if OccursAt(text, p.token, j) {
      assert forall k | 0 <= k < |p.token| :: p.scheme[j + k] == text[j + k] == p.token[k];
      assert OccursAt(p.scheme, p.token, j);
    }
  }

  lemma HideSolo(text: string, token: string, i: nat, rest: string)
    requires token != "" && OccursAt(text, token, i) && forall j | 0 <= j < i :: !OccursAt(text, token, j)
    requires text[i + |token|..] == rest && !Contains(rest, token)
    ensures Hide(text, token) == text[..i] + STARS + rest
  {
    assert IndexOf(text, token, 0) == Some(i);
    HideFirst(text, token, i);
    assert IndexOf(rest, token, 0).None?;
    HideNothing(rest, token);
  }

  lemma ProbeHidden(p: Probe)
    requires p.Proper() && forall j | 0 <= j < p.At() :: !OccursAt(p.Text(), p.token, j)
    requires !Contains(p.trail + "@", p.token)
    ensures Hide(p.Text(), p.token) == p.scheme + p.lead + STARS + p.trail + "@"
  {
    ProbeCut(p);
    HideSolo(p.Text(), p.token, p.At(), p.trail + "@");
  }

  lemma ProbeCut(p: Probe)
    requires p.Proper()
    ensures OccursAt(p.Text(), p.token, p.At())
    ensures p.Text()[..p.At()] == p.scheme + p.lead && p.Text()[p.At() + |p.token|..] == p.trail + "@"
    ensures (p.scheme + p.lead) + STARS + (p.trail + "@") == p.scheme + p.lead + STARS + p.trail + "@"
  {
    ProbeChars(p);
  }

  lemma PlainThree(a: string, b: string, c: string)
    requires Plain(a) && Plain(b) && Plain(c)
    ensures Plain(a + b + c)
  {
  }

  lemma SchemesAre(scheme: string)
    requires scheme in {"http://", "HTTP://"}
    ensures IsScheme(scheme) && '%' !in scheme
  {
  }

  lemma BareUrl(scheme: string, run: string)
    requires IsScheme(scheme) && Plain(run) && |run| > 3
    ensures !AllStarred(scheme + run + "@")
  {
    var out := scheme + run + "@";
    assert out[0..0 + |scheme|] == scheme && out[0 + |scheme|..0 + |scheme| + |run|] == run;
    assert UrlAt(out, 0, |scheme|, |run|);
    assert |run| != |STARS|;
  }

  lemma ProbeLeft(p: Probe)
    requires p.Proper()
    ensures p.scheme + p.lead + STARS + p.trail + "@" == p.scheme + (p.lead + STARS + p.trail) + "@"
    ensures '%' !in p.scheme + p.lead + STARS + p.trail + "@"
  {
    SchemesAre(p.scheme);
  }

  /** What is left of the probe is a URL with more than three stars for userinfo. */
  lemma ProbeBare(p: Probe)
    requires p.Proper() && p.lead + p.trail != ""
    ensures !AllStarred(p.scheme + p.lead + STARS + p.trail + "@")
    ensures '%' !in p.scheme + p.lead + STARS + p.trail + "@"
  {
    FillerPlain(p.lead);
    FillerPlain(p.trail);
    PlainThree(p.lead, STARS, p.trail);
    SchemesAre(p.scheme);
    ProbeLeft(p);
    BareUrl(p.scheme, p.lead + STARS + p.trail);
  }

  lemma ProbeRedacted(p: Probe)
    requires p.Proper() && !Plain(p.token) && AllStarred(p.Text())
    requires forall j | 0 <= j < p.At() :: !OccursAt(p.Text(), p.token, j)
    requires !Contains(p.trail + "@", p.token) && p.lead + p.trail != ""
    ensures !AllStarred(RedactSecrets(p.Text(), Some(p.token)))
  {
    var out := p.scheme + p.lead + STARS + p.trail + "@";
    FixedByScrub(p.Text());
    ProbeHidden(p);
    ProbeBare(p);
    EncodePlain(p.token);
    AbsentWithout(out, Encode(p.token), '%');
    NothingToHide(out, Encode(p.token));
  }

  lemma FixedByScrub(text: string)
    requires AllStarred(text)
    ensures ScrubUserinfo(text) == text
  {
    forall s: string ensures Step(ScrubUserinfo, s) {
      ScrubSteps(s);
    }
    StarredIsFixed(ScrubUserinfo, text);
  }

  // ---- Choosing the probe -----------------------------------------------------------------

  function FirstBlocker(token: string): (f: nat)
    requires !Plain(token)
    ensures f < |token| && Plain(token[..f]) && Blocker(token[f])
  {
    RunLen(token)
  }

  function Repeat(c: char, n: nat): (w: string)
    ensures |w| == n && forall k | 0 <= k < n :: w[k] == c
  {
    if n == 0 then "" else [c] + Repeat(c, n - 1)
  }

  lemma AllThree(w: string)
    requires |w| == 3 && forall k | 0 <= k < 3 :: w[k] == '*'
    ensures w == STARS
  {
  }

  lemma StarsComplete(w: string)
    requires FewStars(w)
    ensures Repeat('*', 3 - |w|) + w == STARS && w + Repeat('*', 3 - |w|) == STARS
  {
    AllThree(Repeat('*', 3 - |w|) + w);
    AllThree(w + Repeat('*', 3 - |w|));
  }

  /** A letter the token does not end in. */
  function OtherLetter(token: string): (c: char)
    requires token != ""
    ensures c in {'a', 'b'} && token[|token| - 1] != c
  {
    if token[|token| - 1] == 'a' then 'b' else 'a'
  }

  function Lead(token: string): string
    requires !Plain(token)
  {
    var f := FirstBlocker(token);
    if token[f] == '@' then Repeat('*', if f <= 3 then 3 - f else 0) else Repeat(OtherLetter(token), |token|)
  }

  ghost predicate EndsOpen(token: string, i: nat, h: nat) { SchemeAt(token, i, h) && Plain(token[i + h..]) }

  lemma OneOpenEnd(token: string, i: nat, h: nat, i': nat, h': nat)
    requires EndsOpen(token, i, h) && EndsOpen(token, i', h')
    ensures i + h == i' + h'
  {
    SchemeText(token, i, h);
    SchemeText(token, i', h');
    assert token[i + h..|token|] == token[i + h..] && token[i' + h'..|token|] == token[i' + h'..];
    PlainText(token, i + h, |token|);
    PlainText(token, i' + h', |token|);
  }

  ghost function Trail(token: string): string {
    if exists i: nat, h: nat :: EndsOpen(token, i, h) then
      var i: nat, h: nat :| EndsOpen(token, i, h);
      Repeat('*', if |token| - i - h <= 3 then 3 - (|token| - i - h) else 0)
    else "a"
  }

  /** The scheme to use: one the token is not found in. */
  function SchemeFor(token: string): string {
    if Contains("http://", token) then "HTTP://" else "http://"
  }

  ghost function ProbeFor(token: string): Probe
    requires !Plain(token)
  {
    Probe(SchemeFor(token), Lead(token), token, Trail(token))
  }

  lemma MarksIn(token: string, i: nat)
    requires OccursAt("http://", token, i) && 4 <= i && token != ""
    ensures token == ":" || token in URL_MARKS
  {
    var s := "http://";
    assert token == s[i..i + |token|];
    assert s[4..5] == ":" && s[4..6] == ":/" && s[4..7] == "://" && s[5..6] == "/" && s[5..7] == "//" && s[6..7] == "/";
  }

  lemma SchemeLacks(token: string)
    requires !Plain(token) && token !in URL_MARKS
    ensures !Contains(SchemeFor(token), token)
  {
    if Contains("http://", token) {
      var i :| 0 <= i <= 7 && OccursAt("http://", token, i);
      if i >= 4 { MarksIn(token, i); }
      assert "http://"[i + 0] == token[0];
      assert token[0] in {'h', 't', 'p'};
      forall j | 0 <= j <= 7 ensures !OccursAt("HTTP://", token, j) {
        assert j < 7 ==> "HTTP://"[j + 0] !in {'h', 't', 'p'};
      }
    }
  }

  lemma TrailIs(token: string)
    requires MayLeave(token)
    ensures Filler(Trail(token)) && |Trail(token)| <= 3
    ensures forall i: nat, h: nat | EndsOpen(token, i, h) :: token[i + h..] + Trail(token) == STARS
    ensures Trail(token) == "a" || exists i: nat, h: nat :: EndsOpen(token, i, h)
  {
    if exists i: nat, h: nat :: EndsOpen(token, i, h) {
      forall i: nat, h: nat | EndsOpen(token, i, h) ensures token[i + h..] + Trail(token) == STARS {
        forall i': nat, h': nat | EndsOpen(token, i', h') ensures i' + h' == i + h {
          OneOpenEnd(token, i, h, i', h');
        }
        StarsComplete(token[i + h..]);
      }
    }
  }

  lemma LeadIs(token: string)
    requires !Plain(token) && MayEnter(token)
    ensures Filler(Lead(token))
    ensures token[FirstBlocker(token)] == '@' ==> Lead(token) + token[..FirstBlocker(token)] == STARS
    ensures token[FirstBlocker(token)] != '@' ==> Lead(token) == Repeat(OtherLetter(token), |token|)
  {
    if token[FirstBlocker(token)] == '@' { StarsComplete(token[..FirstBlocker(token)]); }
  }

  lemma {:induction false} FirstOther(token: string, c: char, k: nat) returns (m: nat)
    requires k < |token| && token[k] != c
    ensures m <= k && token[m] != c && forall j | 0 <= j < m :: token[j] == c
  {
    if j :| 0 <= j < k && token[j] != c {
      m := FirstOther(token, c, j);
    } else {
      m := k;
    }
  }

  lemma ProbeIsProper(token: string)
    requires !Plain(token) && MayEnter(token) && MayLeave(token)
    ensures ProbeFor(token).Proper()
  {
    LeadIs(token);
    TrailIs(token);
  }

  lemma LetterProbe(token: string, j: nat)
    requires !Plain(token) && MayEnter(token) && MayLeave(token) && token !in URL_MARKS && j < ProbeFor(token).At()
    requires token[FirstBlocker(token)] != '@'
    ensures !OccursAt(ProbeFor(token).Text(), token, j)
  {
    var m := FirstOther(token, OtherLetter(token), FirstBlocker(token));
    ProbeIsProper(token);
    LeadIs(token);
    SchemeLacks(token);
    NotEarlierLetter(ProbeFor(token), OtherLetter(token), m, j);
  }

  lemma ProbeNotEarlier(token: string, j: nat)
    requires !Plain(token) && MayEnter(token) && MayLeave(token) && token !in URL_MARKS && j < ProbeFor(token).At()
    ensures !OccursAt(ProbeFor(token).Text(), token, j)
  {
    if token[FirstBlocker(token)] == '@' {
      ProbeIsProper(token);
      NotEarlierAtSign(ProbeFor(token), FirstBlocker(token), j);
    } else {
      LetterProbe(token, j);
    }
  }

  lemma InShort(token: string, f: nat, j: nat)
    requires f < |token| && Plain(token[..f]) && Blocker(token[f]) && OccursAt("a@", token, j)
    ensures token == "@" || token == "a@"
  {
    assert "a@"[j + f] == token[f];
    assert j + f == 1 && |token| == f + 1;
    assert token == "a@"[j..j + |token|];
  }

  lemma LetterMayNotEnter()
    ensures !MayEnter("a@")
  {
    assert "a"[0] == 'a' && !FewStars("a");
    assert "a@"[1] == '@' && "a@"[..1] == "a" && Plain("a");
  }

  lemma ShortTrail(token: string)
    requires !Plain(token) && MayEnter(token) && token !in URL_MARKS
    ensures !Contains("a@", token)
  {
    LetterMayNotEnter();
    forall j | 0 <= j <= 2 ensures !OccursAt("a@", token, j) {
      if OccursAt("a@", token, j) { InShort(token, FirstBlocker(token), j); }
    }
  }

  lemma TooLong(text: string, token: string)
    requires |text| < |token|
    ensures !Contains(text, token)
  {
  }

  lemma ProbeNotLater(token: string)
    requires !Plain(token) && MayEnter(token) && MayLeave(token) && token !in URL_MARKS
    ensures !Contains(Trail(token) + "@", token)
  {
    TrailIs(token);
    if Trail(token) == "a" {
      assert "a" + "@" == "a@";
      ShortTrail(token);
    } else {
      var i: nat, h: nat :| EndsOpen(token, i, h);
      SchemeText(token, i, h);
      TooLong(Trail(token) + "@", token);
    }
  }

  lemma TightFrom(token: string, f: nat)
    requires f < |token| && token[f] == '@' && token[..f] == STARS && Trail(token) == "" && MayLeave(token)
    ensures Tight(token)
  {
    TrailIs(token);
    var i: nat, h: nat :| EndsOpen(token, i, h);
    assert token[i + h..] + "" == token[i + h..];
    StarsAre(token[..f]);
    assert forall k | 0 <= k < 3 :: token[0 + k] == token[..f][k];
  }

  lemma ProbeNotBoth(token: string)
    requires !Plain(token) && MayEnter(token) && MayLeave(token) && !Tight(token)
    ensures Lead(token) + Trail(token) != ""
  {
    var f := FirstBlocker(token);
    LeadIs(token);
    if Lead(token) == "" && Trail(token) == "" {
      assert "" + token[..f] == token[..f];
      TightFrom(token, f);
    }
  }

  /** Every token that disturbs leaves some text with bare userinfo. */
  lemma DisturbsSome(token: string)
    requires token != "" && Disturbs(token) && !Plain(token)
    ensures !AllStarred(RedactSecrets(ProbeFor(token).Text(), Some(token)))
  {
    var p, f := ProbeFor(token), FirstBlocker(token);
    LeadIs(token);
    TrailIs(token);
    assert Completes(p, f) by {
      forall i: nat, h: nat | SchemeAt(token, i, h) && Plain(token[i + h..]) ensures token[i + h..] + p.trail == STARS {
        assert EndsOpen(token, i, h);
      }
    }
    ProbeStarred(p, f);
    forall j | 0 <= j < p.At() ensures !OccursAt(p.Text(), p.token, j) {
      ProbeNotEarlier(token, j);
    }
    ProbeNotLater(token);
    ProbeNotBoth(token);
    ProbeRedacted(p);
  }

  lemma HideStars(front: string, token: string, rest: string)
    requires '*' !in front && token != "" && token[0] == '*'
    ensures Hide(front + token + rest, token) == front + STARS + Hide(rest, token)
  {
    var text, i := front + token + rest, |front|;
    assert OccursAt(text, token, i);
    forall j | 0 <= j < i ensures !OccursAt(text, token, j) {
      assert text[j + 0] == front[j] && front[j] in front;
    }
    HideFirst(text, token, i);
    assert text[..i] == front && text[i + |token|..] == rest;
  }

  lemma OneByOne(scheme: string)
    requires '*' !in scheme
    ensures Hide(scheme + "*" + ("*" + ("*" + "@")), "*") == scheme + STARS + (STARS + (STARS + "@"))
  {
    HideStars(scheme, "*", "*" + ("*" + "@"));
    HideStars("", "*", "*" + "@");
    HideStars("", "*", "@");
    assert "" + "*" + ("*" + "@") == "*" + ("*" + "@") && "" + "*" + "@" == "*" + "@";
    assert "" + STARS + (STARS + "@") == STARS + (STARS + "@") && "" + STARS + "@" == STARS + "@";
    AbsentWithout("@", "*", '*');
    NothingToHide("@", "*");
  }

  lemma TwoAtOnce(scheme: string)
    requires '*' !in scheme
    ensures Hide(scheme + "**" + ("*" + "@"), "**") == scheme + STARS + ("*" + "@")
  {
    HideStars(scheme, "**", "*" + "@");
    assert !OccursAt("*" + "@", "**", 0) by { assert ("*" + "@")[0 + 1] == '@' && "**"[1] == '*'; }
    NothingToHide("*" + "@", "**");
  }

  lemma StarredUrlIs(scheme: string)
    requires IsScheme(scheme)
    ensures ScrubUserinfo(scheme + STARS + "@") == scheme + STARS + "@"
  {
    var text, h := scheme + STARS + "@", |scheme|;
    assert text[0..0 + h] == scheme && text[0 + h..0 + h + 3] == STARS;
    assert UrlAt(text, 0, h, 3);
    ScrubSteps(text);
    ScrubSteps("");
    assert text[..h] == scheme && text[h + 3 + 1..] == "";
    assert scheme + "***@" + "" == text;
  }

  lemma StarEncoded()
    ensures Encode("*") == "*" && Encode("**") == "**"
  {
    assert "*"[1..] == "" && "**"[1..] == "*";
  }

  lemma StarRegroup(scheme: string)
    ensures scheme + STARS + "@" == scheme + "*" + ("*" + ("*" + "@")) == scheme + "**" + ("*" + "@")
    ensures scheme + STARS + (STARS + (STARS + "@")) == scheme + (STARS + STARS + STARS) + "@"
    ensures scheme + STARS + ("*" + "@") == scheme + (STARS + "*") + "@"
  {
    assert STARS == "*" + "*" + "*" == "**" + "*";
  }

  lemma RedactPlainly(text: string, token: string)
    requires token != "" && ScrubUserinfo(text) == text && Encode(token) == token
    ensures RedactSecrets(text, Some(token)) == Hide(text, token)
  {
  }

  lemma OneGrows(scheme: string)
    requires '*' !in scheme
    ensures Hide(scheme + STARS + "@", "*") == scheme + (STARS + STARS + STARS) + "@"
  {
    StarRegroup(scheme);
    OneByOne(scheme);
  }

  lemma TwoGrow(scheme: string)
    requires '*' !in scheme
    ensures Hide(scheme + STARS + "@", "**") == scheme + (STARS + "*") + "@"
  {
    StarRegroup(scheme);
    TwoAtOnce(scheme);
  }

  lemma StarsGrow(scheme: string, token: string) returns (run: string)
    requires (token == "*" || token == "**") && '*' !in scheme
    ensures Hide(scheme + STARS + "@", token) == scheme + run + "@" && Plain(run) && |run| > 3
  {
    if token == "*" {
      OneGrows(scheme);
      run := STARS + STARS + STARS;
    } else {
      TwoGrow(scheme);
      run := STARS + "*";
    }
  }

  /** In a URL that has three stars already, hiding one star or two makes more of them. */
  lemma StarTokens(scheme: string, token: string)
    requires (token == "*" || token == "**") && IsScheme(scheme)
    ensures !AllStarred(RedactSecrets(scheme + STARS + "@", Some(token)))
  {
    SchemeChars(scheme);
    StarredUrlIs(scheme);
    StarEncoded();
    RedactPlainly(scheme + STARS + "@", token);
    var run := StarsGrow(scheme, token);
    BareUrl(scheme, run);
  }

  // ---- Main results -----------------------------------------------------------------------

  /** Redaction leaves stars for the userinfo of every URL, in every text, exactly when the token is not one that disturbs. */
  lemma RedactedStarredIff(token: string)
    requires token != ""
    ensures (forall text: string :: AllStarred(RedactSecrets(text, Some(token)))) <==> !Disturbs(token)
  {
    if !Disturbs(token) {
      forall text: string ensures AllStarred(RedactSecrets(text, Some(token))) {
        RedactedStarred(text, Some(token));
      }
    } else if Plain(token) {
      SchemesAre("http://");
      StarTokens("http://", token);
    } else {
      DisturbsSome(token);
    }
  }

  lemma SpaceProbe(p: Probe)
    requires p == Probe("http://", "a", " ", "b")
    ensures p.Proper() && Completes(p, 0) && AllStarred(p.token) && !Plain(p.token)
    ensures forall j | 0 <= j < p.At() :: !OccursAt(p.Text(), p.token, j)
    ensures !Contains(p.trail + "@", p.token)
  {
    ProbeChars(p);
    assert forall k | 0 <= k < 7 :: p.scheme[k] != ' ';
    forall j | 0 <= j < p.At() ensures !OccursAt(p.Text(), p.token, j) {
      assert p.Text()[j + 0] != p.token[0];
    }
    AbsentWithout(p.trail + "@", p.token, ' ');
  }

  lemma SpaceHidden(p: Probe)
    requires p.token != "" && ScrubUserinfo(p.Text()) == p.Text() && Encode(p.token) != p.token && '%' in Encode(p.token)
    requires '%' !in Hide(p.Text(), p.token)
    ensures RedactSecrets(p.Text(), Some(p.token)) == Hide(p.Text(), p.token)
  {
    AbsentWithout(Hide(p.Text(), p.token), Encode(p.token), '%');
    NothingToHide(Hide(p.Text(), p.token), Encode(p.token));
  }

  lemma SpaceRedacted(p: Probe)
    requires p == Probe("http://", "a", " ", "b")
    ensures ScrubUserinfo(p.Text()) == p.Text()
    ensures RedactSecrets(p.Text(), Some(p.token)) == p.scheme + p.lead + STARS + p.trail + "@"
  {
    SpaceProbe(p);
    ProbeStarred(p, 0);
    FixedByScrub(p.Text());
    ProbeHidden(p);
    ProbeBare(p);
    EncodePlain(p.token);
    SpaceHidden(p);
  }

  lemma SpaceTexts(p: Probe)
    requires p == Probe("http://", "a", " ", "b")
    ensures p.Text() == "http://a b@" && p.scheme + p.lead + STARS + p.trail + "@" == "http://a***b@"
  {
  }

  /** One that disturbs is a single space: hiding it joins two words in front of an at-sign. */
  lemma SpaceDisturbs(text: string, token: string)
    requires text == "http://a b@" && token == " "
    ensures RedactSecrets(text, None) == text && RedactSecrets(text, Some(token)) == "http://a***b@"
  {
    var p := Probe("http://", "a", " ", "b");
    SpaceTexts(p);
    SpaceRedacted(p);
  }

  /** So no token without an at-sign, a slash or white space disturbs, unless it is one star or two. */
  lemma OrdinaryTokenKeepsStars(text: string, token: string)
    requires token != "" && forall k | 0 <= k < |token| :: token[k] != '@' && token[k] != '/' && !Space(token[k]) && token[k] != '*'
    ensures AllStarred(RedactSecrets(text, Some(token)))
  {
    assert token[0] != '*';
    RedactedStarred(text, Some(token));
  }

  /** Without a token, or with an empty one, redaction is the scrub: it cuts at any URL and copies a text that has none. */
  lemma ScrubIs(text: string, i: nat, h: nat, n: nat)
    ensures RedactSecrets(text, Some("")) == RedactSecrets(text, None)
    ensures UrlAt(text, i, h, n) ==>
      RedactSecrets(text, None) ==
      RedactSecrets(text[..i], None) + (text[i..i + h] + "***@" + RedactSecrets(text[i + h + n + 1..], None))
    ensures (forall i: nat, h: nat, n: nat :: !UrlAt(text, i, h, n)) ==> RedactSecrets(text, None) == text
  {
    forall s: string ensures Step(ScrubUserinfo, s) {
      ScrubSteps(s);
    }
    if UrlAt(text, i, h, n) { Cuts(ScrubUserinfo, text, i, h, n); }
    if forall i: nat, h: nat, n: nat :: !UrlAt(text, i, h, n) { FixedByScrub(text); }
  }

  /** What redaction makes of a text does not depend on the userinfo of its URLs. */
  lemma UserinfoIsIrrelevant(before: string, scheme: string, userinfo: string, userinfo': string, after: string, token: Option<string>)
    requires IsScheme(scheme) && Plain(userinfo) && Plain(userinfo') && userinfo != "" && userinfo' != ""
    ensures RedactSecrets(before + scheme + userinfo + "@" + after, token) == RedactSecrets(before + scheme + userinfo' + "@" + after, token)
  {
    ScrubOf(before, scheme, userinfo, after);
    ScrubOf(before, scheme, userinfo', after);
  }

  lemma ScrubOf(before: string, scheme: string, userinfo: string, after: string)
    requires IsScheme(scheme) && Plain(userinfo) && userinfo != ""
    ensures ScrubUserinfo(before + scheme + userinfo + "@" + after) == ScrubUserinfo(before) + (scheme + "***@" + ScrubUserinfo(after))
  {
    var text, i, h, n := before + scheme + userinfo + "@" + after, |before|, |scheme|, |userinfo|;
    assert text[i..i + h] == scheme && text[i + h..i + h + n] == userinfo && text[i + h + n] == '@';
    assert UrlAt(text, i, h, n);
    forall s: string ensures Step(ScrubUserinfo, s) {
      ScrubSteps(s);
    }
    Cuts(ScrubUserinfo, text, i, h, n);
    assert text[..i] == before && text[i + h + n + 1..] == after;
  }

  /** Redaction with a token starts from what redaction without one leaves. */
  lemma ScrubsFirst(text: string, token: Option<string>)
    ensures RedactSecrets(RedactSecrets(text, None), token) == RedactSecrets(text, token)
  {
    ScrubbedIsStarred(text);
    FixedByScrub(ScrubUserinfo(text));
  }

  /** In scrubbed text, a token that encoding leaves as it is gets hidden and nothing else happens. */
  lemma RedactStarred(text: string, token: string)
    requires token != "" && Encode(token) == token && AllStarred(text)
    ensures RedactSecrets(text, Some(token)) == Hide(text, token)
  {
    FixedByScrub(text);
    RedactPlainly(text, token);
  }

  /** Hiding turns the first occurrence into three stars and goes on behind it; without an occurrence it changes nothing. */
  lemma HideIs(text: string, token: string, i: nat)
    requires token != ""
    ensures OccursAt(text, token, i) && (forall j | 0 <= j < i :: !OccursAt(text, token, j)) ==>
            Hide(text, token) == text[..i] + "***" + Hide(text[i + |token|..], token)
    ensures !Contains(text, token) ==> Hide(text, token) == text
  {
    if OccursAt(text, token, i) && forall j | 0 <= j < i :: !OccursAt(text, token, j) {
      assert IndexOf(text, token, 0) == Some(i);
      HideFirst(text, token, i);
    } else if !Contains(text, token) {
      NothingToHide(text, token);
    }
  }

  /** In scrubbed text with neither form of the token, redaction changes nothing. */
  lemma NothingToRedact(text: string, token: string)
    requires token != "" && AllStarred(text) && !Contains(text, token) && !Contains(text, Encode(token))
    ensures RedactSecrets(text, Some(token)) == text
  {
    FixedByScrub(text);
    NothingToHide(text, token);
    NothingToHide(text, Encode(token));
  }
}