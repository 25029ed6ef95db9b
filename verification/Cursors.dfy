/** The cursor of a page of notes in a URL: its text form, and the check of the id. */
module Cursors {
  import opened Wrappers

  /** A position in a list of notes. The text of the id is empty at the start of the list. */
  datatype Cursor = Cursor(createdAt: int, id: string) {
    predicate IsZero() {
      id == ""
    }
  }

  const ZERO: Cursor := Cursor(0, "")

  datatype CursorError = Malformed | BadTime

  /** time.Format and time.Parse with RFC 3339, section 5.6, with all digits. */
  datatype Clock = Clock(format: int -> string, parse: string -> Option<int>) {
    /** Every time comes back, and its text has no underscore. */
    ghost predicate Inverse() {
      forall t :: parse(format(t)) == Some(t) && '_' !in format(t)
    }
  }

  // ---- hexadecimal

  predicate IsHex(c: char) {
    '0' <= c <= '9' || 'a' <= c <= 'f' || 'A' <= c <= 'F'
  }

  predicate AllHex(s: string) {
    forall i :: 0 <= i < |s| ==> IsHex(s[i])
  }

  function HexValue(c: char): (v: nat)
    requires IsHex(c)
    ensures v < 16
  {
    if '0' <= c <= '9' then c as nat - '0' as nat
    else if 'a' <= c <= 'f' then c as nat - 'a' as nat + 10
    else c as nat - 'A' as nat + 10
  }

  function HexDigit(v: nat): (c: char)
    requires v < 16
    ensures IsHex(c) && HexValue(c) == v
  {
    if v < 10 then ('0' as nat + v) as char else ('a' as nat + (v - 10)) as char
  }

  /** hex.DecodeString: an odd length or another character is an error. */
  function DecodeHex(s: string): Option<seq<nat>> {
    if s == "" then Some([])
    else if |s| == 1 || !IsHex(s[0]) || !IsHex(s[1]) then None
    else
      match DecodeHex(s[2..])
      case None => None
      case Some(bytes) => Some([HexValue(s[0]) * 16 + HexValue(s[1])] + bytes)
  }

  lemma HexPair(s: string)
    requires |s| >= 2
    ensures AllHex(s) <==> IsHex(s[0]) && IsHex(s[1]) && AllHex(s[2..])
  {
  }

  lemma {:induction false} DecodesHex(s: string)
    ensures DecodeHex(s).Some? <==> AllHex(s) && |s| % 2 == 0
    ensures DecodeHex(s).Some? ==> |DecodeHex(s).value| * 2 == |s|
  {
    if |s| >= 2 {
      DecodesHex(s[2..]);
      HexPair(s);
    }
  }

  // ---- UUIDs

  /** strings.ReplaceAll of the hyphens by nothing */
  function Strip(s: string): string {
    if s == "" then "" else (if s[0] == '-' then "" else [s[0]]) + Strip(s[1..])
  }

  predicate IsUuid(s: string) {
    && |s| == 36
    && (forall i :: i in [8, 13, 18, 23] ==> s[i] == '-')
    && DecodeHex(Strip(s)).Some? && |DecodeHex(Strip(s)).value| == 16
  }

  /** The canonical form: 8, 4, 4, 4 and 12 hexadecimal digits. */
  predicate Canonical(s: string) {
    && |s| == 36
    && s[8] == s[13] == s[18] == s[23] == '-'
    && AllHex(s[..8]) && AllHex(s[9..13]) && AllHex(s[14..18]) && AllHex(s[19..23]) && AllHex(s[24..])
  }

  lemma {:induction false} StripShortens(s: string)
    ensures |Strip(s)| <= |s|
    ensures |Strip(s)| == |s| ==> Strip(s) == s
    ensures AllHex(s) ==> Strip(s) == s
  {
    if s != "" {
      StripShortens(s[1..]);
      assert s == [s[0]] + s[1..];
      assert AllHex(s) ==> AllHex(s[1..]) && IsHex(s[0]);
    }
  }

  lemma {:induction false} StripDropsHyphen(a: string, b: string)
    ensures Strip(a + "-" + b) == Strip(a) + Strip(b)
  {
    if a == "" {
      assert a + "-" + b == "-" + b;
      assert ("-" + b)[1..] == b;
    } else {
      assert (a + "-" + b)[1..] == a[1..] + "-" + b;
      StripDropsHyphen(a[1..], b);
    }
  }

  lemma CutAtHyphen(s: string, i: nat)
    requires i < |s| && s[i] == '-'
    ensures Strip(s) == Strip(s[..i]) + Strip(s[i + 1..])
  {
    assert s[..i] + [s[i]] + s[i + 1..] == s;
    StripDropsHyphen(s[..i], s[i + 1..]);
  }

  lemma StripIsGroups(s: string)
    requires |s| == 36 && s[8] == s[13] == s[18] == s[23] == '-'
    ensures Strip(s) == Strip(s[..8]) + Strip(s[9..13]) + Strip(s[14..18]) + Strip(s[19..23]) + Strip(s[24..])
  {
    CutAtHyphen(s, 23);
    CutPrefix(s, 18, 23);
    CutPrefix(s, 13, 18);
    CutPrefix(s, 8, 13);
  }

  lemma CutPrefix(s: string, i: nat, j: nat)
    requires i < j <= |s| && s[i] == '-'
    ensures Strip(s[..j]) == Strip(s[..i]) + Strip(s[i + 1..j])
  {
    CutAtHyphen(s[..j], i);
    assert s[..j][..i] == s[..i] && s[..j][i + 1..] == s[i + 1..j];
  }

  lemma AllHexJoins(a: string, b: string)
    ensures AllHex(a + b) <==> AllHex(a) && AllHex(b)
  {
    if AllHex(a + b) {
      forall i | 0 <= i < |a| ensures IsHex(a[i]) { assert (a + b)[i] == a[i]; }
      forall i | 0 <= i < |b| ensures IsHex(b[i]) { assert (a + b)[|a| + i] == b[i]; }
    }
  }

  /** isUUID accepts exactly the canonical form, with digits of either case. */
  lemma IsUuidIsCanonical(s: string)
    ensures IsUuid(s) <==> Canonical(s)
  {
    if |s| == 36 && s[8] == s[13] == s[18] == s[23] == '-' {
      StripIsGroups(s);
      var a, b, c, d, e := s[..8], s[9..13], s[14..18], s[19..23], s[24..];
      StripShortens(a);
      StripShortens(b);
      StripShortens(c);
      StripShortens(d);
      StripShortens(e);
      DecodesHex(Strip(s));
      AllHexJoins(Strip(a), Strip(b));
      AllHexJoins(Strip(a) + Strip(b), Strip(c));
      AllHexJoins(Strip(a) + Strip(b) + Strip(c), Strip(d));
      AllHexJoins(Strip(a) + Strip(b) + Strip(c) + Strip(d), Strip(e));
    }
  }

  // ---- the text of an id

  function Pow16(k: nat): (p: nat)
    ensures p > 0
  {
    if k == 0 then 1 else 16 * Pow16(k - 1)
  }

  /** The number that the uuid cast makes of a text, for the order of the ids. */
  function HexNumber(s: string): nat
    requires AllHex(s)
  {
    if s == "" then 0 else HexNumber(s[..|s| - 1]) * 16 + HexValue(s[|s| - 1])
  }

  function HexText(n: nat, k: nat): (s: string)
    ensures |s| == k && AllHex(s)
  {
    if k == 0 then "" else HexText(n / 16, k - 1) + [HexDigit(n % 16)]
  }

  lemma {:induction false} HexRoundTrip(n: nat, k: nat)
    requires n < Pow16(k)
    ensures HexNumber(HexText(n, k)) == n
  {
    if k > 0 {
      HexRoundTrip(n / 16, k - 1);
      var s := HexText(n, k);
      assert s[..|s| - 1] == HexText(n / 16, k - 1);
    }
  }

  /** The digits of an id, the most significant first. */
  lemma {:induction false} HexTextIs(n: nat, k: nat, i: nat)
    requires i < k
    ensures HexText(n, k)[i] == "0123456789abcdef"[n / Pow16(k - 1 - i) % 16]
    decreases k
  {
    if i < k - 1 {
      HexTextIs(n / 16, k - 1, i);
      DividesTwice(n, Pow16(k - 2 - i));
      assert Pow16(k - 1 - i) == 16 * Pow16(k - 2 - i);
    } else {
      assert Pow16(0) == 1;
    }
    HexDigitIs(n % 16);
  }

  lemma HexDigitIs(v: nat)
    requires v < 16
    ensures HexDigit(v) == "0123456789abcdef"[v]
  {
  }

  lemma DividesTwice(n: nat, p: nat)
    requires p > 0
    ensures n / 16 / p == n / (16 * p)
  {
    var q := n / (16 * p);
    var r := n - q * (16 * p);
    assert 0 <= r < 16 * p;
    assert n == 16 * (q * p) + r;
    assert n / 16 == q * p + r / 16;
    assert 0 <= r / 16 < p;
    assert (q * p + r / 16) / p == q by {
      QuotientIs(q, p, r / 16);
    }
  }

  lemma QuotientIs(q: nat, p: nat, r: nat)
    requires p > 0 && r < p
    ensures (q * p + r) / p == q
  {
    var n := q * p + r;
    assert n == n / p * p + n % p;
    if n / p > q {
      OneMore(q, n / p, p);
    } else if n / p < q {
      OneMore(n / p, q, p);
    }
  }

  lemma OneMore(a: nat, b: nat, p: nat)
    requires a < b
    ensures a * p + p <= b * p
  {
    assert b * p == a * p + (b - a) * p;
    assert (b - a) * p == p + (b - a - 1) * p;
  }

  function Hyphenate(h: string): (s: string)
    requires |h| == 32
    ensures |s| == 36
  {
    h[..8] + "-" + h[8..12] + "-" + h[12..16] + "-" + h[16..20] + "-" + h[20..]
  }

  lemma HyphenatedGroups(h: string)
    requires |h| == 32
    ensures var s := Hyphenate(h);
            && s[8] == s[13] == s[18] == s[23] == '-'
            && s[..8] == h[..8] && s[9..13] == h[8..12] && s[14..18] == h[12..16] && s[19..23] == h[16..20] && s[24..] == h[20..]
  {
  }

  lemma HyphenatedIsUuid(h: string)
    requires |h| == 32 && AllHex(h)
    ensures IsUuid(Hyphenate(h))
  {
    HyphenatedGroups(h);
    IsUuidIsCanonical(Hyphenate(h));
  }

  lemma FiveStrip(a: string, b: string, c: string, d: string, e: string)
    requires AllHex(a) && AllHex(b) && AllHex(c) && AllHex(d) && AllHex(e)
    ensures Strip(a + "-" + b + "-" + c + "-" + d + "-" + e) == a + b + c + d + e
  {
    StripDropsHyphen(a, b);
    StripDropsHyphen(a + "-" + b, c);
    StripDropsHyphen(a + "-" + b + "-" + c, d);
    StripDropsHyphen(a + "-" + b + "-" + c + "-" + d, e);
    StripShortens(a);
    StripShortens(b);
    StripShortens(c);
    StripShortens(d);
    StripShortens(e);
  }

  lemma HyphensStrip(h: string)
    requires |h| == 32 && AllHex(h)
    ensures Strip(Hyphenate(h)) == h
  {
    FiveStrip(h[..8], h[8..12], h[12..16], h[16..20], h[20..]);
    assert h[..8] + h[8..12] + h[12..16] + h[16..20] + h[20..] == h;
  }

  /** The id of a row as PostgreSQL writes it. */
  function UuidText(n: nat): (s: string)
    ensures |s| == 36
  {
    Hyphenate(HexText(n, 32))
  }

  /** The id that the uuid cast reads. */
  function UuidNumber(s: string): nat
    requires IsUuid(s)
  {
    DecodesHex(Strip(s));
    HexNumber(Strip(s))
  }

  lemma UuidRoundTrip(n: nat)
    requires n < Pow16(32)
    ensures IsUuid(UuidText(n)) && UuidNumber(UuidText(n)) == n
  {
    HyphenatedIsUuid(HexText(n, 32));
    HyphensStrip(HexText(n, 32));
    HexRoundTrip(n, 32);
  }

  // ---- formatCursor and parseCursor

  function FormatCursor(clock: Clock, c: Cursor): string {
    if c.IsZero() then "" else clock.format(c.createdAt) + "_" + c.id
  }

  /** The first underscore. */
  function UnderscoreAt(s: string): (r: Option<nat>)
    ensures r.Some? ==> r.value < |s|
  {
    if s == "" then None
    else if s[0] == '_' then Some(0)
    else
      match UnderscoreAt(s[1..])
      case None => None
      case Some(k) => Some(k + 1)
  }

  function ParseCursor(clock: Clock, s: string): Result<Cursor, CursorError> {
    if s == "" then
      Ok(ZERO)
    else
      match UnderscoreAt(s)
      case None => Err(Malformed)
      case Some(k) =>
        if !IsUuid(s[k + 1..]) then
          Err(Malformed)
        else
          match clock.parse(s[..k])
          case None => Err(BadTime)
          case Some(t) => Ok(Cursor(t, s[k + 1..]))
  }

  lemma {:induction false} FirstUnderscore(a: string, b: string)
    requires '_' !in a
    ensures UnderscoreAt(a + "_" + b) == Some(|a|)
  {
    if a == "" {
      assert a + "_" + b == "_" + b;
    } else {
      assert (a + "_" + b)[1..] == a[1..] + "_" + b;
      FirstUnderscore(a[1..], b);
    }
  }

  /** A cursor comes back from its text exactly when it is the start of the list or has the
      id of a note; any other cursor is refused, or becomes the start. */
  lemma CursorRoundTrip(clock: Clock, c: Cursor)
    requires clock.Inverse()
    ensures ParseCursor(clock, FormatCursor(clock, c)) == Ok(c) <==> c == ZERO || IsUuid(c.id)
    ensures c.IsZero() ==> ParseCursor(clock, FormatCursor(clock, c)) == Ok(ZERO)
    ensures !c.IsZero() && !IsUuid(c.id) ==> ParseCursor(clock, FormatCursor(clock, c)) == Err(Malformed)
  {
    if !c.IsZero() {
      var t, s := clock.format(c.createdAt), FormatCursor(clock, c);
      FirstUnderscore(t, c.id);
      assert s[..|t|] == t && s[|t| + 1..] == c.id;
    }
  }

  /** A time and a canonical id around an underscore that the time does not have. */
  ghost predicate CursorText(clock: Clock, s: string, k: nat) {
    k < |s| && s[k] == '_' && '_' !in s[..k] && Canonical(s[k + 1..]) && clock.parse(s[..k]).Some?
  }

  lemma CursorTextParses(clock: Clock, s: string, k: nat)
    requires CursorText(clock, s, k)
    ensures ParseCursor(clock, s).Ok?
  {
    assert s == s[..k] + "_" + s[k + 1..];
    FirstUnderscore(s[..k], s[k + 1..]);
    IsUuidIsCanonical(s[k + 1..]);
  }

  /** What parseCursor accepts. */
  lemma ParseAccepts(clock: Clock, s: string)
    ensures ParseCursor(clock, s).Ok? <==> s == "" || exists k :: CursorText(clock, s, k)
    ensures ParseCursor(clock, s).Ok? && s != "" ==> IsUuid(ParseCursor(clock, s).value.id)
  {
    if ParseCursor(clock, s).Ok? && s != "" {
      UnderscoreIsFirst(s);
      IsUuidIsCanonical(s[UnderscoreAt(s).value + 1..]);
      assert CursorText(clock, s, UnderscoreAt(s).value);
    }
    if k: nat :| CursorText(clock, s, k) {
      CursorTextParses(clock, s, k);
    }
  }

  lemma {:induction false} UnderscoreIsFirst(s: string)
    ensures UnderscoreAt(s).Some? ==> s[UnderscoreAt(s).value] == '_' && '_' !in s[..UnderscoreAt(s).value]
    ensures UnderscoreAt(s) == None ==> '_' !in s
  {
    if s != "" && s[0] != '_' {
      UnderscoreIsFirst(s[1..]);
      assert s == [s[0]] + s[1..];
      if UnderscoreAt(s).Some? {
        var k := UnderscoreAt(s).value;
        assert s[..k] == [s[0]] + s[1..][..k - 1];
      }
    }
  }
}
