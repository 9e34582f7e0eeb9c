/** The string operations the repository leans on: `strip().lower()`, decimal
    rendering of a counter and character filtering. */
module Text {

  predicate IsUpper(c: char) { 'A' <= c <= 'Z' }

  function LowerChar(c: char): char {
    if IsUpper(c) then (c as int - 'A' as int + 'a' as int) as char else c
  }

  function Lower(s: string): string {
    seq(|s|, i requires 0 <= i < |s| => LowerChar(s[i]))
  }

  predicate IsLower(s: string) { forall i :: 0 <= i < |s| ==> !IsUpper(s[i]) }

  predicate IsSpace(c: char) { c == ' ' || '\t' <= c <= '\r' || (28 <= c as int <= 31) }

  function StripLeft(s: string): string {
    if s != "" && IsSpace(s[0]) then StripLeft(s[1..]) else s
  }

  function StripRight(s: string): string {
    if s != "" && IsSpace(s[|s| - 1]) then StripRight(s[..|s| - 1]) else s
  }

  /** Python's `str(value or "").strip().lower()`. */
  function Norm(s: string): string { Lower(StripRight(StripLeft(s))) }

  /** A string with no upper case and no space at either end is already normal. */
  lemma NormFixed(s: string)
    requires IsLower(s)
    requires s == "" || (!IsSpace(s[0]) && !IsSpace(s[|s| - 1]))
    ensures Norm(s) == s
  {
    assert Lower(s) == s;
  }

  function Digit(d: nat): char
    requires d < 10
  {
    ('0' as int + d) as char
  }

  /** `str(n)` for a counter. */
  function Decimal(n: nat): (s: string)
    ensures |s| > 0 && forall i :: 0 <= i < |s| ==> '0' <= s[i] <= '9'
  {
    if n < 10 then [Digit(n)] else Decimal(n / 10) + [Digit(n % 10)]
  }

  lemma {:induction false} DecimalInjective(m: nat, n: nat)
    requires Decimal(m) == Decimal(n)
    ensures m == n
  {
    var s, t := Decimal(m), Decimal(n);
    assert s[|s| - 1] == t[|t| - 1];
    assert s[..|s| - 1] == t[..|t| - 1];
    if m >= 10 && n >= 10 {
      assert s[..|s| - 1] == Decimal(m / 10) && t[..|t| - 1] == Decimal(n / 10);
      DecimalInjective(m / 10, n / 10);
    }
  }

  predicate IsWordChar(c: char) {
    'a' <= c <= 'z' || 'A' <= c <= 'Z' || '0' <= c <= '9' || c == '_'
  }

  /** `re.sub(r"[^a-zA-Z0-9_]+", "", s)`. */
  function WordChars(s: string): string {
    if s == "" then ""
    else if IsWordChar(s[|s| - 1]) then WordChars(s[..|s| - 1]) + [s[|s| - 1]]
    else WordChars(s[..|s| - 1])
  }

  lemma {:induction false} WordCharsConcat(a: string, b: string)
    ensures WordChars(a + b) == WordChars(a) + WordChars(b)
  {
    if b == "" {
      assert a + b == a;
    } else {
      assert (a + b)[..|a + b| - 1] == a + b[..|b| - 1];
      WordCharsConcat(a, b[..|b| - 1]);
    }
  }

  lemma {:induction false} WordCharsKeeps(s: string)
    requires forall i :: 0 <= i < |s| ==> IsWordChar(s[i])
    ensures WordChars(s) == s
  {
    if s != "" {
      WordCharsKeeps(s[..|s| - 1]);
    }
  }

  // ---- the same, told character by character ------------------------------------------------

  /** Space, tab, line ends and separators. */
  predicate SpaceCode(c: char) { c as int in {9, 10, 11, 12, 13, 28, 29, 30, 31, 32} }

  lemma {:induction false} StripLeftFrom(s: string) returns (i: nat)
    ensures i <= |s| && StripLeft(s) == s[i..] && (forall k :: 0 <= k < i ==> SpaceCode(s[k]))
    ensures i < |s| ==> !SpaceCode(s[i])
  {
    i := 0;
    if s != "" && IsSpace(s[0]) {
      var j := StripLeftFrom(s[1..]);
      i := j + 1;
    }
  }

  lemma {:induction false} StripRightTo(s: string) returns (j: nat)
    ensures j <= |s| && StripRight(s) == s[..j] && (forall k :: j <= k < |s| ==> SpaceCode(s[k]))
    ensures j > 0 ==> !SpaceCode(s[j - 1])
  {
    j := |s|;
    if s != "" && IsSpace(s[|s| - 1]) {
      j := StripRightTo(s[..|s| - 1]);
    }
  }

  /** The text between the spaces at either end, its capitals made small. */
  lemma {:induction false} NormExactly(s: string) returns (i: nat, j: nat)
    ensures i <= j <= |s| && forall k :: 0 <= k < i || j <= k < |s| ==> SpaceCode(s[k])
    ensures i < j ==> !SpaceCode(s[i]) && !SpaceCode(s[j - 1])
    ensures |Norm(s)| == j - i
    ensures forall k :: i <= k < j ==>
              Norm(s)[k - i] as int == s[k] as int + if 65 <= s[k] as int <= 90 then 32 else 0
  {
    i := StripLeftFrom(s);
    var rest := s[i..];
    var l := StripRightTo(rest);
    j := i + l;
    forall k | j <= k < |s| ensures SpaceCode(s[k]) {
      assert rest[k - i] == s[k];
    }
  }

  /** A letter, a digit or an underscore. */
  predicate WordCode(c: char) {
    97 <= c as int <= 122 || 65 <= c as int <= 90 || 48 <= c as int <= 57 || c as int == 95
  }

  ghost function PlacesOf(s: string): (places: seq<nat>)
    ensures forall k :: 0 <= k < |places| ==> places[k] < |s|
  {
    if s == "" then []
    else
      var front := PlacesOf(s[..|s| - 1]);
      if WordCode(s[|s| - 1]) then front + [|s| - 1] else front
  }

  lemma {:induction false} PlacesRise(s: string)
    ensures forall k :: 0 <= k < |PlacesOf(s)| ==> WordCode(s[PlacesOf(s)[k]])
    ensures forall k, l :: 0 <= k < l < |PlacesOf(s)| ==> PlacesOf(s)[k] < PlacesOf(s)[l]
  {
    if s != "" {
      PlacesRise(s[..|s| - 1]);
    }
  }

  lemma {:induction false} PlaceIsThere(s: string, i: nat)
    requires i < |s| && WordCode(s[i])
    ensures i in PlacesOf(s)
  {
    if i < |s| - 1 {
      PlaceIsThere(s[..|s| - 1], i);
    }
  }

  ghost function CharsAt(s: string, places: seq<nat>): string
    requires forall k :: 0 <= k < |places| ==> places[k] < |s|
  {
    seq(|places|, k requires 0 <= k < |places| => s[places[k]])
  }

  lemma {:induction false} CharsAtPlaces(s: string)
    ensures WordChars(s) == CharsAt(s, PlacesOf(s))
  {
    if s != "" {
      var front, c := s[..|s| - 1], s[|s| - 1];
      CharsAtPlaces(front);
      assert IsWordChar(c) <==> WordCode(c);
      assert CharsAt(s, PlacesOf(front)) == CharsAt(front, PlacesOf(front));
      if WordCode(c) {
        assert CharsAt(s, PlacesOf(front) + [|front|]) == CharsAt(s, PlacesOf(front)) + [c];
      }
    }
  }

  /** What is left are the letters, digits and underscores, in order. */
  lemma {:induction false} WordCharsExactly(s: string) returns (places: seq<nat>)
    ensures forall k :: 0 <= k < |places| ==> places[k] < |s| && WordCode(s[places[k]])
    ensures forall k, l :: 0 <= k < l < |places| ==> places[k] < places[l]
    ensures forall i: nat :: i < |s| && WordCode(s[i]) ==> i in places
    ensures WordChars(s) == CharsAt(s, places)
  {
    CharsAtPlaces(s);
    places := PlacesOf(s);
    PlacesRise(s);
    forall i: nat | i < |s| && WordCode(s[i]) ensures i in places {
      PlaceIsThere(s, i);
    }
  }

  /** The number that the digits stand for. */
  function ValueOf(s: string): int {
    if s == "" then 0 else 10 * ValueOf(s[..|s| - 1]) + (s[|s| - 1] as int - '0' as int)
  }

  /** A counter is written in digits that stand for it, without a zero in front. */
  lemma {:induction false} DecimalExactly(n: nat)
    ensures ValueOf(Decimal(n)) == n && (n > 0 ==> Decimal(n)[0] != '0')
  {
    if n >= 10 {
      DecimalExactly(n / 10);
      assert Decimal(n)[..|Decimal(n)| - 1] == Decimal(n / 10);
    } else {
      assert Decimal(n)[..|Decimal(n)| - 1] == "";
    }
  }
}
