/**
 * Scrubbing secrets from text: URL userinfo, the exact token and its URL-encoded form.
 */
module Redaction {
  import opened Prelude

  const STARS := "***"

  predicate OccursAt(text: string, pat: string, i: nat) {
    i + |pat| <= |text| && forall k | 0 <= k < |pat| :: text[i + k] == pat[k]
  }

  predicate Contains(text: string, pat: string) {
    exists i | 0 <= i <= |text| :: OccursAt(text, pat, i)
  }

  // ---- split(token).join("***") -----------------------------------------------------------

  /** The first occurrence at or after `from`: String.indexOf. */
  function IndexOf(text: string, pat: string, from: nat): (r: Option<nat>)
    requires from <= |text|
    ensures r.Some? ==> from <= r.value && OccursAt(text, pat, r.value)
    ensures forall j | from <= j <= |text| && (r.Some? ==> j < r.value) :: !OccursAt(text, pat, j)
    decreases |text| - from
  {
    if OccursAt(text, pat, from) then Some(from)
    else if from == |text| then None
    else IndexOf(text, pat, from + 1)
  }

  function Split(text: string, pat: string): (pieces: seq<string>)
    requires pat != ""
    ensures pieces != []
    decreases |text|
  {
    match IndexOf(text, pat, 0)
    case None => [text]
    case Some(i) => [text[..i]] + Split(text[i + |pat|..], pat)
  }

  function Join(pieces: seq<string>, sep: string): string
    requires pieces != []
  {
    if |pieces| == 1 then pieces[0] else pieces[0] + sep + Join(pieces[1..], sep)
  }

  function Hide(text: string, pat: string): string
    requires pat != ""
  {
    Join(Split(text, pat), STARS)
  }

  /** A pattern that can neither begin, end, nor be bridged by the replacement. */
  predicate StarSafe(pat: string) {
    pat != "" && pat[0] != '*' && pat[|pat| - 1] != '*' && !Contains(pat, STARS)
  }

  lemma OccursInside(text: string, pat: string, lo: nat, hi: nat, i: nat)
    requires lo <= hi <= |text| && lo <= i && i + |pat| <= hi
    ensures OccursAt(text, pat, i) <==> OccursAt(text[lo..hi], pat, i - lo)
  {
    var cut := text[lo..hi];
    assert forall k | lo <= k < hi :: text[k] == cut[k - lo];
  }

  /** Cutting text at every occurrence leaves none inside a piece, and adds no other pattern to one. */
  lemma {:induction false} PiecesHide(text: string, pat: string, other: string)
    requires pat != ""
    ensures forall p | p in Split(text, pat) :: !Contains(p, pat)
    ensures !Contains(text, other) ==> forall p | p in Split(text, pat) :: !Contains(p, other)
    decreases |text|
  {
    match IndexOf(text, pat, 0)
    case None =>
    case Some(i) =>
      var rest := text[i + |pat|..];
      PiecesHide(rest, pat, other);
      forall j | 0 <= j <= i ensures !OccursAt(text[..i], pat, j) {
        if j + |pat| <= i { OccursInside(text, pat, 0, i, j); }
      }
      if !Contains(text, other) {
        forall j | 0 <= j <= i ensures !OccursAt(text[..i], other, j) {
          if j + |other| <= i { OccursInside(text, other, 0, i, j); }
        }
        forall j | 0 <= j <= |rest| ensures !OccursAt(rest, other, j) {
          if j + |other| <= |rest| { OccursInside(text, other, i + |pat|, |text|, j + i + |pat|); }
        }
      }
  }

  /** A star-safe pattern cannot straddle a replacement. */
  lemma NoStraddle(left: string, right: string, pat: string, i: nat)
    requires StarSafe(pat) && OccursAt(left + STARS + right, pat, i)
    ensures OccursAt(left, pat, i) || (i >= |left| + 3 && OccursAt(right, pat, i - |left| - 3))
  {
    var text := left + STARS + right;
    var n := |pat|;
    assert forall k | |left| <= k < |left| + 3 :: text[k] == '*';
    assert text[i + 0] == pat[0] && text[i + (n - 1)] == pat[n - 1];
    if i < |left| <= i + n {
      assert !OccursAt(pat, STARS, |left| - i);
    }
    assert i + n <= |left| || i >= |left| + 3;
  }

  lemma {:induction false} JoinHides(pieces: seq<string>, pat: string)
    requires pieces != [] && StarSafe(pat)
    requires forall p | p in pieces :: !Contains(p, pat)
    ensures !Contains(Join(pieces, STARS), pat)
  {
    assert pieces[0] in pieces;
    if |pieces| > 1 {
      JoinHides(pieces[1..], pat);
      var rest := Join(pieces[1..], STARS);
      forall i | 0 <= i <= |pieces[0] + STARS + rest| ensures !OccursAt(pieces[0] + STARS + rest, pat, i) {
        if OccursAt(pieces[0] + STARS + rest, pat, i) {
          NoStraddle(pieces[0], rest, pat, i);
        }
      }
    }
  }

  /** Replacing one pattern leaves no trace of it, nor of any star-safe pattern that was already absent. */
  lemma HideHides(text: string, pat: string, other: string)
    requires pat != ""
    ensures StarSafe(pat) ==> !Contains(Hide(text, pat), pat)
    ensures StarSafe(other) && !Contains(text, other) ==> !Contains(Hide(text, pat), other)
  {
    PiecesHide(text, pat, other);
    if StarSafe(pat) { JoinHides(Split(text, pat), pat); }
    if StarSafe(other) && !Contains(text, other) { JoinHides(Split(text, pat), other); }
  }

  // ---- Exactly which tokens can be hidden -------------------------------------------------

  /** A text on which hiding `pat` puts it back. */
  function Spoiler(pat: string): string
    requires pat != "" && !StarSafe(pat)
  {
    if pat[0] == '*' then pat + pat[1..]
    else if pat[|pat| - 1] == '*' then pat[..|pat| - 1] + pat
    else
      var j := IndexOf(pat, STARS, 0).value;
      pat[..j] + pat + pat[j + 3..]
  }

  /** Hiding the first occurrence when what follows is too short to hold another. */
  lemma HideOnce(text: string, pat: string, i: nat)
    requires pat != "" && OccursAt(text, pat, i) && forall j | 0 <= j < i :: !OccursAt(text, pat, j)
    requires |text| - i - |pat| < |pat|
    ensures Hide(text, pat) == text[..i] + STARS + text[i + |pat|..]
  {
    var rest := text[i + |pat|..];
    assert IndexOf(text, pat, 0) == Some(i);
    assert IndexOf(rest, pat, 0).None?;
    assert Split(text, pat) == [text[..i], rest];
    assert [text[..i], rest][1..] == [rest] && Join([rest], STARS) == rest;
    assert Join([text[..i], rest], STARS) == text[..i] + STARS + rest;
  }

  lemma SpoilerLeading(pat: string)
    requires pat != "" && pat[0] == '*'
    ensures Contains(Hide(pat + pat[1..], pat), pat) && Hide(pat + pat[1..], pat) == STARS + pat[1..]
  {
    var text := pat + pat[1..];
    HideOnce(text, pat, 0);
    var out := text[..0] + STARS + text[|pat|..];
    assert text[|pat|..] == pat[1..] && out == STARS + pat[1..];
    assert OccursAt(out, pat, 2);
  }

  /** An occurrence before the last would put the closing star where the pattern has its first character. */
  lemma TrailingOccursLast(pat: string, text: string, p: nat)
    requires pat != "" && pat[0] != '*' && pat[|pat| - 1] == '*'
    requires text == pat[..|pat| - 1] + pat && p < |pat| - 1
    ensures !OccursAt(text, pat, p)
  {
    var n := |pat|;
    assert text[p + 0] == pat[p] && text[p + (n - 1)] == pat[p];
  }

  lemma SpoilerTrailing(pat: string)
    requires pat != "" && pat[0] != '*' && pat[|pat| - 1] == '*'
    ensures Contains(Hide(pat[..|pat| - 1] + pat, pat), pat) && Hide(pat[..|pat| - 1] + pat, pat) == pat[..|pat| - 1] + STARS
  {
    var n := |pat|;
    var text := pat[..n - 1] + pat;
    forall p | 0 <= p < n - 1 ensures !OccursAt(text, pat, p) {
      TrailingOccursLast(pat, text, p);
    }
    TrailingParts(pat, text);
    HideOnce(text, pat, n - 1);
  }

  lemma TrailingParts(pat: string, text: string)
    requires pat != "" && pat[|pat| - 1] == '*' && text == pat[..|pat| - 1] + pat
    ensures OccursAt(text, pat, |pat| - 1)
    ensures Contains(text[..|pat| - 1] + STARS + text[|pat| - 1 + |pat|..], pat)
    ensures text[..|pat| - 1] + STARS + text[|pat| - 1 + |pat|..] == pat[..|pat| - 1] + STARS
  {
    var n := |pat|;
    var out := text[..n - 1] + STARS + text[n - 1 + n..];
    assert text[..n - 1] == pat[..n - 1] && out[n - 1] == '*';
    assert OccursAt(out, pat, 0);
  }

  lemma OccursWithin(text: string, pat: string, sub: string, p: nat, j: nat)
    requires OccursAt(text, pat, p) && OccursAt(pat, sub, j)
    ensures OccursAt(text, sub, p + j)
  {
    assert forall k | j <= k < j + |sub| :: text[p + k] == pat[k];
  }

  lemma SpoilerInner(pat: string, j: nat)
    requires pat != "" && pat[0] != '*' && pat[|pat| - 1] != '*'
    requires IndexOf(pat, STARS, 0) == Some(j)
    ensures Contains(Hide(pat[..j] + pat + pat[j + 3..], pat), pat) && Hide(pat[..j] + pat + pat[j + 3..], pat) == pat
  {
    var text := pat[..j] + pat + pat[j + 3..];
    assert pat[j + 0] == STARS[0] && j > 0;
    SpoilerParts(pat, j, text);
    forall p | 0 <= p < j ensures !OccursAt(text, pat, p) {
      InnerOccursLate(pat, j, text, p);
    }
    HideOnce(text, pat, j);
    assert OccursAt(pat, pat, 0);
  }

  lemma InnerOccursLate(pat: string, j: nat, text: string, p: nat)
    requires IndexOf(pat, STARS, 0) == Some(j) && text == pat[..j] + pat + pat[j + 3..] && p < j
    ensures !OccursAt(text, pat, p)
  {
    StarsComeLate(pat, j, p + j);
    if OccursAt(text, pat, p) { OccursWithin(text, pat, STARS, p, j); }
  }

  lemma SpoilerParts(pat: string, j: nat, text: string)
    requires OccursAt(pat, STARS, j) && text == pat[..j] + pat + pat[j + 3..]
    ensures OccursAt(text, pat, j) && text[..j] + STARS + text[j + |pat|..] == pat
  {
    assert text[..j] == pat[..j] && text[j + |pat|..] == pat[j + 3..];
    assert pat[j + 0] == STARS[0] && pat[j + 1] == STARS[1] && pat[j + 2] == STARS[2];
    assert pat[..j] + STARS + pat[j + 3..] == pat;
  }

  /** In front of the second copy of its first part, the pattern has no run of three stars. */
  lemma StarsComeLate(pat: string, j: nat, q: nat)
    requires IndexOf(pat, STARS, 0) == Some(j) && j <= q < j + j
    ensures !OccursAt(pat[..j] + pat + pat[j + 3..], STARS, q)
  {
    var text := pat[..j] + pat + pat[j + 3..];
    assert text[q] == pat[q - j] && text[q + 1] == pat[q - j + 1] && text[q + 2] == pat[q - j + 2];
    assert !OccursAt(pat, STARS, q - j);
  }

  function Stars(s: string): nat {
    if s == "" then 0 else (if s[0] == '*' then 1 else 0) + Stars(s[1..])
  }

  lemma {:induction false} StarsAppend(a: string, b: string)
    ensures Stars(a + b) == Stars(a) + Stars(b)
  {
    if a == "" {
      assert a + b == b;
    } else {
      assert (a + b)[1..] == a[1..] + b;
      StarsAppend(a[1..], b);
    }
  }

  lemma ThreeStars()
    ensures Stars(STARS) == 3 && Stars("*") == 1
  {
    assert STARS[1..] == "**" && "**"[1..] == "*" && "*"[1..] == "";
    assert Stars("*") == 1 && Stars("**") == 2;
  }

  /** What hiding a pattern in its spoiler may leave: the pattern itself, or two characters and two stars more. */
  predicate Spoiled(out: string, pat: string) {
    Contains(out, pat) && (out == pat || (|out| == |pat| + 2 && Stars(out) == Stars(pat) + 2))
  }

  lemma LeadingSpoiled(pat: string)
    requires pat != "" && pat[0] == '*'
    ensures Spoiled(Hide(pat + pat[1..], pat), pat)
  {
    SpoilerLeading(pat);
    StarsAppend(STARS, pat[1..]);
    ThreeStars();
  }

  lemma TrailingSpoiled(pat: string)
    requires pat != "" && pat[0] != '*' && pat[|pat| - 1] == '*'
    ensures Spoiled(Hide(pat[..|pat| - 1] + pat, pat), pat)
  {
    SpoilerTrailing(pat);
    var front := pat[..|pat| - 1];
    assert front + "*" == pat;
    StarsAppend(front, STARS);
    StarsAppend(front, "*");
    ThreeStars();
  }

  lemma InnerSpoiled(pat: string, j: nat)
    requires pat != "" && pat[0] != '*' && pat[|pat| - 1] != '*' && IndexOf(pat, STARS, 0) == Some(j)
    ensures j + 3 <= |pat| && Spoiled(Hide(pat[..j] + pat + pat[j + 3..], pat), pat)
  {
    SpoilerInner(pat, j);
  }

  lemma SpoilerSpoils(pat: string)
    requires pat != "" && !StarSafe(pat)
    ensures Spoiled(Hide(Spoiler(pat), pat), pat)
  {
    var text := Spoiler(pat);
    if pat[0] == '*' {
      LeadingSpoiled(pat);
      assert text == pat + pat[1..];
    } else if pat[|pat| - 1] == '*' {
      TrailingSpoiled(pat);
      assert text == pat[..|pat| - 1] + pat;
    } else {
      var j := IndexOf(pat, STARS, 0).value;
      InnerSpoiled(pat, j);
      assert text == pat[..j] + pat + pat[j + 3..];
    }
  }

  lemma SpoilerAlphabet(pat: string, c: char)
    requires pat != "" && !StarSafe(pat) && c !in pat
    ensures c !in Spoiler(pat)
  {
  }

  /**
   * Replacing every occurrence by stars hides a token in every text exactly when the token is star-safe: it
   * neither begins nor ends with a star and has no three stars in a row.
   */
  lemma HiddenEverywhereIff(pat: string)
    requires pat != ""
    ensures (forall text: string :: !Contains(Hide(text, pat), pat)) <==> StarSafe(pat)
  {
    if StarSafe(pat) {
      forall text: string ensures !Contains(Hide(text, pat), pat) {
        HideHides(text, pat, pat);
      }
    } else {
      SpoilerSpoils(pat);
      assert Contains(Hide(Spoiler(pat), pat), pat);
    }
  }

  // ---- encodeURIComponent -----------------------------------------------------------------

  predicate Unreserved(c: char) {
    'A' <= c <= 'Z' || 'a' <= c <= 'z' || '0' <= c <= '9' || c in {'-', '_', '.', '!', '~', '*', '\'', '(', ')'}
  }

  const HEX := "0123456789ABCDEF"

  function Percent(byte: nat): (s: string)
    requires byte < 256
    ensures |s| == 3 && '*' !in s && '@' !in s
  {
    ['%', HEX[byte / 16], HEX[byte % 16]]
  }

  function Utf8(u: nat): (bytes: seq<nat>)
    requires u < 0x110000
    ensures bytes != [] && forall i | 0 <= i < |bytes| :: bytes[i] < 256
  {
    if u < 0x80 then [u]
    else if u < 0x800 then [0xC0 + u / 64, 0x80 + u % 64]
    else if u < 0x10000 then [0xE0 + u / 4096, 0x80 + u / 64 % 64, 0x80 + u % 64]
    else [0xF0 + u / 262144, 0x80 + u / 4096 % 64, 0x80 + u / 64 % 64, 0x80 + u % 64]
  }

  function Percents(bytes: seq<nat>): (s: string)
    requires forall i | 0 <= i < |bytes| :: bytes[i] < 256
    ensures |s| == 3 * |bytes| && '*' !in s && '@' !in s
  {
    if bytes == [] then "" else Percent(bytes[0]) + Percents(bytes[1..])
  }

  /** The UTF-8 bytes of a character, percent-encoded unless it is unreserved. */
  function EncodeChar(c: char): (s: string)
    ensures s != "" && (c == '*' ==> s == "*") && (c != '*' ==> '*' !in s)
  {
    if Unreserved(c) then [c] else Percents(Utf8(c as int))
  }

  function Encode(s: string): (e: string)
    ensures |e| >= |s|
  {
    if s == "" then "" else EncodeChar(s[0]) + Encode(s[1..])
  }

  // What encoding means: percent-decoding gives back the UTF-8 bytes, and these the characters.

  function HexValue(c: char): nat {
    if '0' <= c <= '9' then c as nat - '0' as nat else if 'A' <= c <= 'F' then c as nat - 'A' as nat + 10 else 0
  }

  /** Percent-decoding: %XY stands for one byte, any other character for itself. */
  function Unescape(s: string): seq<nat> {
    if s == "" then []
    else if s[0] == '%' && |s| >= 3 then [16 * HexValue(s[1]) + HexValue(s[2])] + Unescape(s[3..])
    else [s[0] as nat] + Unescape(s[1..])
  }

  /** How many bytes carry a character, by the first of them. */
  function Width(first: nat): (w: nat)
    ensures 1 <= w <= 4
  {
    if first < 0xC0 then 1 else if first < 0xE0 then 2 else if first < 0xF0 then 3 else 4
  }

  /** The character that one to four bytes carry. */
  function Joined(bytes: seq<nat>): nat
    requires 1 <= |bytes| <= 4
  {
    match |bytes|
    case 1 => bytes[0]
    case 2 => bytes[0] % 32 * 64 + bytes[1] % 64
    case 3 => bytes[0] % 16 * 4096 + bytes[1] % 64 * 64 + bytes[2] % 64
    case _ => bytes[0] % 8 * 262144 + bytes[1] % 64 * 4096 + bytes[2] % 64 * 64 + bytes[3] % 64
  }

  function FromUtf8(bytes: seq<nat>): seq<nat> {
    if bytes == [] then []
    else
      var w := Width(bytes[0]);
      if w <= |bytes| then [Joined(bytes[..w])] + FromUtf8(bytes[w..]) else bytes
  }

  function CodePoints(s: string): seq<nat> {
    if s == "" then [] else [s[0] as nat] + CodePoints(s[1..])
  }

  lemma HexRoundTrip(digit: nat)
    requires digit < 16
    ensures HexValue(HEX[digit]) == digit
  {
    assert HEX[..10] == "0123456789" && HEX[10..] == "ABCDEF";
    assert HEX[digit] == if digit < 10 then HEX[..10][digit] else HEX[10..][digit - 10];
  }

  lemma UnescapePercent(byte: nat, rest: string)
    requires byte < 256
    ensures Unescape(Percent(byte) + rest) == [byte] + Unescape(rest)
  {
    HexRoundTrip(byte / 16);
    HexRoundTrip(byte % 16);
    assert (Percent(byte) + rest)[3..] == rest;
  }

  lemma UnescapeFirst(byte: nat, bytes: seq<nat>, escaped: string, rest: string)
    requires byte < 256 && Unescape(escaped + rest) == bytes + Unescape(rest)
    ensures Unescape(Percent(byte) + escaped + rest) == [byte] + bytes + Unescape(rest)
  {
    UnescapePercent(byte, escaped + rest);
    assert Percent(byte) + (escaped + rest) == Percent(byte) + escaped + rest;
  }

  lemma {:induction false} UnescapePercents(bytes: seq<nat>, rest: string)
    requires forall i | 0 <= i < |bytes| :: bytes[i] < 256
    ensures Unescape(Percents(bytes) + rest) == bytes + Unescape(rest)
  {
    if bytes == [] {
      assert Percents(bytes) + rest == rest;
    } else {
      UnescapePercents(bytes[1..], rest);
      UnescapeFirst(bytes[0], bytes[1..], Percents(bytes[1..]), rest);
      assert [bytes[0]] + bytes[1..] == bytes;
    }
  }

  lemma UnescapeChar(c: char, rest: string)
    ensures Unescape(EncodeChar(c) + rest) == Utf8(c as nat) + Unescape(rest)
  {
    if Unreserved(c) {
      assert ([c] + rest)[1..] == rest && c != '%';
    } else {
      UnescapePercents(Utf8(c as nat), rest);
    }
  }

  lemma JoinsTwo(u: nat)
    requires 0x80 <= u < 0x800
    ensures |Utf8(u)| == Width(Utf8(u)[0]) && Joined(Utf8(u)) == u
  {
    var low, top := u % 64, u / 64;
    assert (0x80 + low) % 64 == low && (0xC0 + top) % 32 == top;
  }

  lemma JoinsThree(u: nat)
    requires 0x800 <= u < 0x10000
    ensures |Utf8(u)| == Width(Utf8(u)[0]) && Joined(Utf8(u)) == u
  {
    var low, mid, top := u % 64, u / 64 % 64, u / 4096;
    assert (0x80 + low) % 64 == low && (0x80 + mid) % 64 == mid && (0xE0 + top) % 16 == top;
  }

  lemma Digits(u: nat)
    ensures u == u / 262144 * 262144 + u / 4096 % 64 * 4096 + u / 64 % 64 * 64 + u % 64
  {
    assert u / 4096 == u / 64 / 64 && u / 262144 == u / 4096 / 64;
  }

  lemma JoinsFour(u: nat)
    requires 0x10000 <= u < 0x110000
    ensures |Utf8(u)| == Width(Utf8(u)[0]) && Joined(Utf8(u)) == u
  {
    var low, mid, high, top := u % 64, u / 64 % 64, u / 4096 % 64, u / 262144;
    Digits(u);
    JoinFour(0xF0 + top, 0x80 + high, 0x80 + mid, 0x80 + low);
    LowBits(low, mid, high, top);
  }

  lemma JoinFour(a: nat, b: nat, c: nat, d: nat)
    ensures Joined([a, b, c, d]) == a % 8 * 262144 + b % 64 * 4096 + c % 64 * 64 + d % 64
  {
  }

  lemma LowBits(low: nat, mid: nat, high: nat, top: nat)
    requires low < 64 && mid < 64 && high < 64 && top < 8
    ensures (0x80 + low) % 64 == low && (0x80 + mid) % 64 == mid && (0x80 + high) % 64 == high && (0xF0 + top) % 8 == top
  {
  }

  lemma Utf8Joins(u: nat)
    requires u < 0x110000
    ensures |Utf8(u)| == Width(Utf8(u)[0]) && Joined(Utf8(u)) == u
  {
    if 0x80 <= u < 0x800 {
      JoinsTwo(u);
    } else if 0x800 <= u < 0x10000 {
      JoinsThree(u);
    } else if 0x10000 <= u {
      JoinsFour(u);
    }
  }

  lemma DecodeOne(bytes: seq<nat>, rest: seq<nat>)
    requires bytes != [] && |bytes| == Width(bytes[0])
    ensures FromUtf8(bytes + rest) == [Joined(bytes)] + FromUtf8(rest)
  {
    assert (bytes + rest)[..|bytes|] == bytes && (bytes + rest)[|bytes|..] == rest;
  }

  /** Encoding loses nothing: undoing the escapes and the UTF-8 gives back the characters. */
  lemma {:induction false} EncodeRoundTrip(s: string)
    ensures FromUtf8(Unescape(Encode(s))) == CodePoints(s)
  {
    if s != "" {
      EncodeRoundTrip(s[1..]);
      UnescapeChar(s[0], Encode(s[1..]));
      Utf8Joins(s[0] as nat);
      DecodeOne(Utf8(s[0] as nat), Unescape(Encode(s[1..])));
    }
  }

  /** Encoding moves no star and makes none. */
  lemma {:induction false} EncodeStars(s: string, i: nat)
    requires OccursAt(Encode(s), STARS, i)
    ensures Contains(s, STARS)
    decreases |s|
  {
    var head, tail := EncodeChar(s[0]), Encode(s[1..]);
    StarsSplit(head, tail, i);
    if i >= |head| {
      EncodeStars(s[1..], i - |head|);
      var j :| 0 <= j <= |s[1..]| && OccursAt(s[1..], STARS, j);
      OccursShift(s, STARS, j);
    } else {
      assert s[0] == '*' && head == "*";
      LeadingStars(s[1..]);
      assert OccursAt(s, STARS, 0);
    }
  }

  lemma StarsSplit(head: string, tail: string, i: nat)
    requires OccursAt(head + tail, STARS, i)
    ensures i >= |head| ==> OccursAt(tail, STARS, i - |head|)
    ensures i < |head| ==> '*' in head
    ensures i < |head| == 1 ==> |tail| >= 2 && tail[0] == '*' && tail[1] == '*'
  {
    var text := head + tail;
    assert text[i + 0] == STARS[0] && text[i + 1] == STARS[1] && text[i + 2] == STARS[2];
    if i < |head| { assert text[i] == head[i]; }
  }

  lemma OccursShift(text: string, pat: string, i: nat)
    requires text != "" && OccursAt(text[1..], pat, i)
    ensures OccursAt(text, pat, i + 1)
  {
    var rest := text[1..];
    assert forall k | 0 <= k < |pat| :: rest[i + k] == pat[k];
  }

  lemma LeadingStar(s: string)
    requires s != ""
    ensures Encode(s)[0] == '*' <==> s[0] == '*'
  {
    assert Encode(s)[0] == EncodeChar(s[0])[0] && EncodeChar(s[0])[0] in EncodeChar(s[0]);
  }

  lemma LeadingStars(s: string)
    requires |Encode(s)| >= 2 && Encode(s)[0] == '*' && Encode(s)[1] == '*'
    ensures |s| >= 2 && s[0] == '*' && s[1] == '*'
  {
    LeadingStar(s);
    assert Encode(s)[1] == Encode(s[1..])[0];
    LeadingStar(s[1..]);
  }

  lemma LastOf(head: string, tail: string)
    requires head != ""
    ensures (head + tail)[|head + tail| - 1] == if tail == "" then head[|head| - 1] else tail[|tail| - 1]
  {
  }

  lemma {:induction false} LastStar(s: string)
    requires s != ""
    ensures Encode(s) != "" && (Encode(s)[|Encode(s)| - 1] == '*' <==> s[|s| - 1] == '*')
  {
    var head, tail := EncodeChar(s[0]), Encode(s[1..]);
    LastOf(head, tail);
    if |s| > 1 {
      LastStar(s[1..]);
    } else {
      assert tail == "" && head[|head| - 1] in head;
    }
  }

  lemma EncodeStarSafe(s: string)
    requires StarSafe(s)
    ensures StarSafe(Encode(s))
  {
    LastStar(s);
    LeadingStar(s);
    if Contains(Encode(s), STARS) {
      var i :| 0 <= i <= |Encode(s)| && OccursAt(Encode(s), STARS, i);
      EncodeStars(s, i);
    }
  }

  // ---- URL userinfo -----------------------------------------------------------------------

  function Lower(c: char): char {
    if 'A' <= c <= 'Z' then ((c as int) + 32) as char else c
  }

  predicate UserinfoChar(c: char) { c != '@' && c != '/' && !Space(c) }

  predicate StartsNoCase(text: string, prefix: string) {
    |prefix| <= |text| && forall k | 0 <= k < |prefix| :: Lower(text[k]) == prefix[k]
  }

  /** The length of a leading http:// or https://, or zero. */
  function SchemeLen(text: string): (n: nat)
    ensures n <= |text| && n in {0, 7, 8}
  {
    if StartsNoCase(text, "https://") then 8 else if StartsNoCase(text, "http://") then 7 else 0
  }

  /** The length of the leading run of userinfo characters. */
  function RunLen(text: string): (n: nat)
    ensures n <= |text| && (forall k | 0 <= k < n :: UserinfoChar(text[k]))
    ensures n < |text| ==> !UserinfoChar(text[n])
  {
    if text == "" || !UserinfoChar(text[0]) then 0 else 1 + RunLen(text[1..])
  }

  /** Scheme length and userinfo length when text begins with a URL that carries userinfo. */
  function UserinfoAt(text: string): (r: Option<(nat, nat)>)
    ensures r.Some? ==> 0 < r.value.0 && 0 < r.value.1 && r.value.0 + r.value.1 < |text|
                        && text[r.value.0 + r.value.1] == '@'
  {
    var h := SchemeLen(text);
    var n := RunLen(text[h..]);
    if h > 0 && n > 0 && h + n < |text| && text[h + n] == '@' then Some((h, n)) else None
  }

  /** Replace the userinfo of every URL by stars. */
  function ScrubUserinfo(text: string): string
    decreases |text|
  {
    if text == "" then ""
    else match UserinfoAt(text)
      case Some((h, n)) => text[..h] + "***@" + ScrubUserinfo(text[h + n + 1..])
      case None => [text[0]] + ScrubUserinfo(text[1..])
  }

  /** A URL's userinfo is all that matters to the match, and it ends at its at-sign. */
  lemma UserinfoLocal(x: string, y: string, h: nat, n: nat)
    requires UserinfoAt(x) == Some((h, n)) && h + n < |y| && x[..h + n + 1] == y[..h + n + 1]
    ensures UserinfoAt(y) == Some((h, n))
  {
    assert forall k | 0 <= k <= h + n :: x[k] == x[..h + n + 1][k] == y[..h + n + 1][k] == y[k];
    RunIs(x[h..], n);
    RunIs(y[h..], n);
  }

  lemma {:induction false} RunIs(text: string, n: nat)
    requires n < |text| && !UserinfoChar(text[n]) && forall k | 0 <= k < n :: UserinfoChar(text[k])
    ensures RunLen(text) == n
  {
    if n > 0 {
      RunIs(text[1..], n - 1);
    }
  }

  /** Scrubbing the rest of a text creates no URL with userinfo that reaches back across the cut. */
  lemma {:induction false} NoNewUserinfo(front: string, rest: string)
    requires front != "" && UserinfoAt(front + ScrubUserinfo(rest)).Some?
    ensures UserinfoAt(front + rest).Some?
    decreases |rest|
  {
    if rest != "" {
      match UserinfoAt(rest)
      case None =>
        Regroup(front, rest, ScrubUserinfo(rest[1..]));
        NoNewUserinfo(front + [rest[0]], rest[1..]);
      case Some(_) =>
        ScrubKeepsScheme(rest);
        NoUserinfoAcross(front, rest, ScrubUserinfo(rest));
    }
  }

  lemma Regroup(front: string, rest: string, tail: string)
    requires rest != ""
    ensures front + [rest[0]] + tail == front + ([rest[0]] + tail)
    ensures front + [rest[0]] + rest[1..] == front + rest
  {
  }

  lemma ScrubKeepsScheme(text: string)
    requires UserinfoAt(text).Some?
    ensures var h := SchemeLen(text); h <= |ScrubUserinfo(text)| && ScrubUserinfo(text)[..h] == text[..h]
  {
  }

  /** A match that starts before an old one ends before it too: the old one's slashes stop it. */
  lemma NoUserinfoAcross(front: string, rest: string, rest': string)
    requires front != "" && UserinfoAt(front + rest').Some? && SchemeLen(rest) > 0
    requires SchemeLen(rest) <= |rest'| && rest'[..SchemeLen(rest)] == rest[..SchemeLen(rest)]
    ensures UserinfoAt(front + rest).Some?
  {
    var out, m, h' := front + rest', |front|, SchemeLen(rest);
    var (h, n) := UserinfoAt(out).value;
    assert forall k | 0 <= k < h' :: rest[k] == rest[..h'][k] == rest'[..h'][k] == out[m + k];
    SchemeShape(rest);
    SchemeShape(out);
    assert Lower(out[m + 0]) == 'h';
    assert forall k | h <= k < h + n :: out[k] == out[h..][k - h];
    SlashBlocks(out, rest, m, h, n, h');
    assert out[..h + n + 1] == (front + rest)[..h + n + 1];
    UserinfoLocal(out, front + rest, h, n);
  }

  lemma SchemeShape(text: string)
    requires SchemeLen(text) > 0
    ensures Lower(text[0]) == 'h' && forall k | 1 <= k < SchemeLen(text) :: Lower(text[k]) != 'h'
    ensures forall k | 0 <= k < SchemeLen(text) :: text[k] != '@'
    ensures text[SchemeLen(text) - 1] == '/'
  {
    var n := SchemeLen(text);
    var scheme := if n == 8 then "https://" else "http://";
    assert StartsNoCase(text, scheme);
    assert forall k | 0 <= k < n :: Lower(text[k]) == scheme[k];
  }

  lemma SlashBlocks(out: string, rest: string, m: nat, h: nat, n: nat, h': nat)
    requires h <= m && m + h' <= |out| && h + n < |out| && out[h + n] == '@' && 0 < h' == SchemeLen(rest)
    requires forall k | 0 <= k < h' :: out[m + k] == rest[k]
    requires forall k | h <= k < h + n :: UserinfoChar(out[k])
    ensures h + n < m
  {
    SchemeShape(rest);
    assert out[m + (h' - 1)] == '/';
    forall k | m <= k < m + h' ensures out[k] != '@' {
      assert out[m + (k - m)] == rest[k - m];
    }
  }

  /** A URL at the front of the text, if it has userinfo, has stars for it. */
  predicate StarredAt(text: string) {
    var m := UserinfoAt(text);
    m.Some? ==> text[m.value.0..m.value.0 + m.value.1] == STARS
  }

  /** The same of every URL in the text. */
  predicate Starred(text: string) {
    forall i | 0 <= i <= |text| :: StarredAt(text[i..])
  }

  lemma ScrubbedCopy(text: string)
    requires text != ""
    ensures UserinfoAt([text[0]] + ScrubUserinfo(text[1..])).Some? ==> UserinfoAt(text).Some?
  {
    assert [text[0]] + text[1..] == text;
    if UserinfoAt([text[0]] + ScrubUserinfo(text[1..])).Some? { NoNewUserinfo([text[0]], text[1..]); }
  }

  /** Every URL left in scrubbed text has stars for its userinfo. */
  lemma {:induction false} UserinfoScrubbed(text: string)
    ensures Starred(ScrubUserinfo(text))
    decreases |text|
  {
    if text != "" {
      match UserinfoAt(text)
      case None =>
        UserinfoScrubbed(text[1..]);
        ScrubbedCopy(text);
        StarredCopy(text[0], ScrubUserinfo(text[1..]));
      case Some((h, n)) =>
        UserinfoScrubbed(text[h + n + 1..]);
        StarredMatch(text, h, n, ScrubUserinfo(text[h + n + 1..]));
    }
  }

  lemma StarredCopy(c: char, tail: string)
    requires Starred(tail) && UserinfoAt([c] + tail).None?
    ensures Starred([c] + tail)
  {
    var out := [c] + tail;
    forall i | 0 <= i <= |out| ensures StarredAt(out[i..]) {
      assert out[i..] == if i == 0 then out else tail[i - 1..];
    }
  }

  lemma StarredMatch(text: string, h: nat, n: nat, tail: string)
    requires UserinfoAt(text) == Some((h, n)) && Starred(tail)
    ensures Starred(text[..h] + "***@" + tail)
  {
    var out := text[..h] + "***@" + tail;
    forall i | 0 <= i <= |out| ensures StarredAt(out[i..]) {
      StarredAfterMatch(text, h, n, tail, i);
    }
  }

  lemma StarredAfterMatch(text: string, h: nat, n: nat, tail: string, i: nat)
    requires UserinfoAt(text) == Some((h, n)) && i <= h + 4 + |tail|
    requires i >= h + 4 ==> StarredAt(tail[i - h - 4..])
    ensures StarredAt((text[..h] + "***@" + tail)[i..])
  {
    var out := text[..h] + "***@" + tail;
    if i >= h + 4 {
      assert out[i..] == tail[i - h - 4..];
    } else if i == 0 {
      ScrubbedHead(text, h, n, out, tail);
    } else {
      NoUserinfoInside(text, h, n, out, tail, i);
    }
  }

  lemma NoUserinfoInside(text: string, h: nat, n: nat, out: string, rest: string, i: nat)
    requires UserinfoAt(text) == Some((h, n)) && out == text[..h] + "***@" + rest && 0 < i < h + 4
    ensures UserinfoAt(out[i..]).None?
  {
    SchemeShape(text);
    assert out[i] == if i < h then text[i] else "***@"[i - h];
    assert Lower(out[i]) != 'h' && out[i..][0] == out[i];
    if SchemeLen(out[i..]) > 0 {
      SchemeShape(out[i..]);
    }
  }

  lemma ScrubbedHead(text: string, h: nat, n: nat, out: string, rest: string)
    requires UserinfoAt(text) == Some((h, n)) && out == text[..h] + "***@" + rest
    ensures UserinfoAt(out[0..]) == Some((h, 3)) && out[0..][h..h + 3] == STARS
  {
    assert out[0..] == out;
    assert forall k | 0 <= k < h :: out[k] == text[k];
    assert SchemeLen(out) == h by {
      if h == 7 { assert out[7] == '*' && Lower(out[7]) != '/' && Lower(out[4]) == ':'; }
    }
    assert out[h..][0] == '*' && out[h..][1] == '*' && out[h..][2] == '*' && out[h..][3] == '@';
    RunIs(out[h..], 3);
  }

  // ---- The whole ---------------------------------------------------------------------------

  function RedactSecrets(text: string, token: Option<string>): string {
    var scrubbed := ScrubUserinfo(text);
    if token.None? || token.value == "" then scrubbed
    else
      var hidden := Hide(scrubbed, token.value);
      var encoded := Encode(token.value);
      if encoded == token.value then hidden else Hide(hidden, encoded)
  }

  /** No text can make redaction leave a star-safe token, or its URL-encoded form, in the output. */
  lemma RedactionHides(text: string, token: string)
    requires StarSafe(token)
    ensures !Contains(RedactSecrets(text, Some(token)), token)
    ensures !Contains(RedactSecrets(text, Some(token)), Encode(token))
  {
    var scrubbed, encoded := ScrubUserinfo(text), Encode(token);
    EncodeStarSafe(token);
    HideHides(scrubbed, token, token);
    HideHides(Hide(scrubbed, token), encoded, token);
  }

  // ---- Exactly which tokens redaction hides -----------------------------------------------

  lemma {:induction false} NoStars(s: string)
    requires '*' !in s
    ensures Stars(s) == 0
  {
    if s != "" {
      NoStars(s[1..]);
    }
  }

  lemma EncodeCharStars(c: char)
    ensures Stars(EncodeChar(c)) == if c == '*' then 1 else 0
  {
    if c == '*' {
      ThreeStars();
    } else {
      NoStars(EncodeChar(c));
    }
  }

  /** Encoding keeps the number of stars. */
  lemma {:induction false} EncodeKeepsCount(s: string)
    ensures Stars(Encode(s)) == Stars(s)
  {
    if s != "" {
      EncodeKeepsCount(s[1..]);
      EncodeCharStars(s[0]);
      StarsAppend(EncodeChar(s[0]), Encode(s[1..]));
    }
  }

  lemma EncodeCharGrows(c: char)
    ensures '@' !in EncodeChar(c) && (EncodeChar(c) == [c] || |EncodeChar(c)| >= 3)
  {
  }

  /** What encoding changes it makes longer by at least two, and it leaves no at-sign. */
  lemma {:induction false} EncodeGrows(s: string)
    ensures Encode(s) == s || |Encode(s)| >= |s| + 2
    ensures '@' !in Encode(s)
  {
    if s != "" {
      EncodeGrows(s[1..]);
      EncodeCharGrows(s[0]);
      var head, tail := EncodeChar(s[0]), Encode(s[1..]);
      assert Encode(s) == head + tail && [s[0]] + s[1..] == s;
      assert |Encode(s)| == |head| + |tail|;
    }
  }

  lemma EncodeStar(s: string)
    requires s != "" && s[0] == '*'
    ensures Encode(s) == "*" + Encode(s[1..])
  {
  }

  lemma {:induction false} EncodeKeepsStars(s: string, i: nat)
    requires OccursAt(s, STARS, i)
    ensures Contains(Encode(s), STARS)
  {
    assert s[i + 0] == STARS[0] && s[i + 1] == STARS[1] && s[i + 2] == STARS[2];
    if i == 0 {
      EncodeStar(s);
      EncodeStar(s[1..]);
      EncodeStar(s[2..]);
      assert s[1..][1..] == s[2..];
      assert OccursAt(Encode(s), STARS, 0);
    } else {
      assert forall k {:trigger STARS[k]} | 0 <= k < 3 :: s[1..][i - 1 + k] == STARS[k];
      EncodeKeepsStars(s[1..], i - 1);
      ContainsAfter(EncodeChar(s[0]), Encode(s[1..]), STARS);
    }
  }

  lemma ContainsAfter(head: string, tail: string, pat: string)
    requires Contains(tail, pat)
    ensures Contains(head + tail, pat)
  {
    var q :| 0 <= q <= |tail| && OccursAt(tail, pat, q);
    assert OccursAt(head + tail, pat, |head| + q);
  }

  /** A token and its encoding are star-safe together. */
  lemma EncodeStarSafeIff(s: string)
    ensures StarSafe(Encode(s)) <==> StarSafe(s)
  {
    if StarSafe(s) {
      EncodeStarSafe(s);
    } else if s != "" {
      LeadingStar(s);
      LastStar(s);
      if Contains(s, STARS) {
        var i :| 0 <= i <= |s| && OccursAt(s, STARS, i);
        EncodeKeepsStars(s, i);
      }
    }
  }

  /** Text without an at-sign has no userinfo to scrub. */
  lemma {:induction false} NothingToScrub(text: string)
    requires '@' !in text
    ensures ScrubUserinfo(text) == text
  {
    if text != "" {
      NothingToScrub(text[1..]);
    }
  }

  lemma RedactUnscrubbed(text: string, token: string)
    requires '@' !in text && token != ""
    ensures Encode(token) != ""
    ensures RedactSecrets(text, Some(token)) ==
            if Encode(token) == token then Hide(text, token) else Hide(Hide(text, token), Encode(token))
  {
    NothingToScrub(text);
  }

  lemma NothingToHide(text: string, pat: string)
    requires pat != "" && !Contains(text, pat)
    ensures Hide(text, pat) == text
  {
    assert Split(text, pat) == [text];
  }

  lemma AbsentWithout(text: string, pat: string, c: char)
    requires c in pat && c !in text
    ensures !Contains(text, pat)
  {
    var a :| 0 <= a < |pat| && pat[a] == c;
    forall i | 0 <= i && i + |pat| <= |text| ensures !OccursAt(text, pat, i) {
      assert text[i + a] in text;
    }
  }

  /** What hiding leaves of a spoiler never holds the token's encoding. */
  lemma SpoiledLacks(out: string, token: string)
    requires Spoiled(out, token) && Encode(token) != token
    ensures !Contains(out, Encode(token))
  {
    var encoded := Encode(token);
    EncodeGrows(token);
    EncodeKeepsCount(token);
    forall i | 0 <= i <= |out| ensures !OccursAt(out, encoded, i) {
      assert OccursAt(out, encoded, i) ==> out == encoded;
    }
  }

  /** A token without an at-sign survives on its own spoiler: hiding its encoding afterwards does not touch it. */
  lemma PlainTokenSurvives(token: string)
    requires token != "" && !StarSafe(token) && '@' !in token
    ensures Contains(RedactSecrets(Spoiler(token), Some(token)), token)
  {
    SpoilerSpoils(token);
    SpoilerAlphabet(token, '@');
    RedactUnscrubbed(Spoiler(token), token);
    var hidden := Hide(Spoiler(token), token);
    if Encode(token) != token {
      SpoiledLacks(hidden, token);
      NothingToHide(hidden, Encode(token));
    }
  }

  /** A token with an at-sign does not occur in the spoiler of its encoding, which then survives. */
  lemma EncodedTokenSurvives(token: string)
    requires !StarSafe(token) && '@' in token
    ensures !StarSafe(Encode(token))
    ensures Contains(RedactSecrets(Spoiler(Encode(token)), Some(token)), Encode(token))
  {
    var encoded := Encode(token);
    EncodeStarSafeIff(token);
    EncodeGrows(token);
    SpoilerSpoils(encoded);
    SpoilerAlphabet(encoded, '@');
    RedactUnscrubbed(Spoiler(encoded), token);
    AbsentWithout(Spoiler(encoded), token, '@');
    NothingToHide(Spoiler(encoded), token);
  }

  /** Redaction leaves neither form of a token in any text exactly when the token is star-safe. */
  lemma RedactionHidesIff(token: string)
    requires token != ""
    ensures (forall text: string :: !Contains(RedactSecrets(text, Some(token)), token)
                                    && !Contains(RedactSecrets(text, Some(token)), Encode(token))) <==> StarSafe(token)
  {
    if StarSafe(token) {
      forall text: string
        ensures !Contains(RedactSecrets(text, Some(token)), token) && !Contains(RedactSecrets(text, Some(token)), Encode(token))
      {
        RedactionHides(text, token);
      }
    } else if '@' in token {
      EncodedTokenSurvives(token);
    } else {
      PlainTokenSurvives(token);
    }
  }

  /** In particular every token without a star. */
  lemma StarFreeIsSafe(token: string)
    requires token != "" && '*' !in token
    ensures StarSafe(token)
  {
    forall i | 0 <= i <= |token| ensures !OccursAt(token, STARS, i) {
      assert STARS[0] == '*' && (i < |token| ==> token[i + 0] in token);
    }
  }

  /** With a star at its end, a token can survive redaction. */
  lemma StarredTokenSurvives()
    ensures RedactSecrets("aa*", Some("a*")) == "a***" && Contains("a***", "a*")
  {
    var token := "a*";
    assert UserinfoAt("aa*").None? && UserinfoAt("a*").None? && UserinfoAt("*").None?;
    assert "aa*"[1..] == "a*" && "a*"[1..] == "*" && "*"[1..] == "";
    assert ScrubUserinfo("aa*") == "aa*" by {
      assert ScrubUserinfo("*") == "*" && ScrubUserinfo("a*") == "a*";
    }
    HideOnce("aa*", token, 1);
    assert "aa*"[..1] == "a" && "aa*"[1 + 2..] == "";
    assert Encode(token) == token by {
      assert Encode("*") == "*";
    }
    assert OccursAt("a***", token, 0);
  }
}
