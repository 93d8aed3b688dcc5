/** The java.lang.String and wrapper-class behaviour the option parser
    relies on: trim, toLowerCase, startsWith, endsWith, split on one
    character, Integer.parseInt and Boolean.parseBoolean. Characters are
    taken as ASCII where case or digits matter. */
module JavaText {
  import opened Collections

  /** String.trim drops the characters up to and including the space. */
  predicate IsSpace(c: char) {
    c <= ' '
  }

  predicate StartsWith(s: string, prefix: string) {
    |prefix| <= |s| && s[..|prefix|] == prefix
  }

  predicate EndsWith(s: string, suffix: string) {
    |suffix| <= |s| && s[|s| - |suffix|..] == suffix
  }

  /** The string with its leading spaces removed. */
  function TrimStart(s: string): (r: string)
    ensures |r| <= |s| && r == s[|s| - |r|..]
    ensures forall k :: 0 <= k < |s| - |r| ==> IsSpace(s[k])
    ensures r == [] || !IsSpace(r[0])
  {
    if s == [] || !IsSpace(s[0]) then s else TrimStart(s[1..])
  }

  /** The string with its trailing spaces removed. */
  function TrimEnd(s: string): (r: string)
    ensures |r| <= |s| && r == s[..|r|]
    ensures forall k :: |r| <= k < |s| ==> IsSpace(s[k])
    ensures r == [] || !IsSpace(r[|r| - 1])
  {
    if s == [] || !IsSpace(s[|s| - 1]) then s else TrimEnd(s[..|s| - 1])
  }

  /** String.trim: what is left neither starts nor ends with a space, and
      a string that neither starts nor ends with one is left alone. */
  function Trim(s: string): (r: string)
    ensures r == [] || (!IsSpace(r[0]) && !IsSpace(r[|r| - 1]))
    ensures (s == [] || (!IsSpace(s[0]) && !IsSpace(s[|s| - 1]))) ==> r == s
    ensures |r| <= |s|
    ensures exists i, j :: (0 <= i <= j <= |s| && r == s[i..j] &&
                            (forall k :: 0 <= k < i ==> IsSpace(s[k])) && (forall k :: j <= k < |s| ==> IsSpace(s[k])))
  {
    TrimWindow(s, TrimStart(s), TrimEnd(TrimStart(s)));
    TrimEnd(TrimStart(s))
  }

  /** What trimming leaves is a window of s with only spaces outside it:
      t is s less its leading spaces, r is t less its trailing ones. */
  lemma TrimWindow(s: string, t: string, r: string)
    requires |t| <= |s| && t == s[|s| - |t|..] && forall k :: 0 <= k < |s| - |t| ==> IsSpace(s[k])
    requires t == [] || !IsSpace(t[0])
    requires |r| <= |t| && r == t[..|r|] && forall k :: |r| <= k < |t| ==> IsSpace(t[k])
    requires r == [] || !IsSpace(r[|r| - 1])
    ensures r == [] || (!IsSpace(r[0]) && !IsSpace(r[|r| - 1]))
    ensures (s == [] || (!IsSpace(s[0]) && !IsSpace(s[|s| - 1]))) ==> r == s
    ensures exists i, j :: (0 <= i <= j <= |s| && r == s[i..j] &&
                            (forall k :: 0 <= k < i ==> IsSpace(s[k])) && (forall k :: j <= k < |s| ==> IsSpace(s[k])))
  {
    var i := |s| - |t|;
    var j := i + |r|;
    assert r == s[i..j];
    forall k | j <= k < |s| ensures IsSpace(s[k]) {
      assert s[k] == t[k - i];
    }
    if s != [] && !IsSpace(s[0]) && !IsSpace(s[|s| - 1]) {
      assert i == 0;
      assert t[|t| - 1] == s[|s| - 1];
    }
  }

  /** String.toLowerCase on ASCII letters. */
  function ToLower(s: string): (r: string)
    ensures |r| == |s|
    ensures forall i :: 0 <= i < |s| && !('A' <= s[i] <= 'Z') ==> r[i] == s[i]
    ensures forall i :: 0 <= i < |s| && 'A' <= s[i] <= 'Z' ==> r[i] == (s[i] as int + 32) as char && 'a' <= r[i] <= 'z'
  {
    seq(|s|, i requires 0 <= i < |s| => if 'A' <= s[i] <= 'Z' then (s[i] as int + 32) as char else s[i])
  }

  /** Boolean.parseBoolean: true exactly for "true" in any letter case. */
  function ParseBoolean(s: string): bool {
    ToLower(s) == "true"
  }

  /** The position of the first c in s. */
  function IndexOf(s: string, c: char): (i: nat)
    requires c in s
    ensures i < |s| && s[i] == c && c !in s[..i]
  {
    if s[0] == c then 0 else 1 + IndexOf(s[1..], c)
  }

  /** The first position holding c is the one before which c does not occur. */
  lemma IndexOfUnique(s: string, c: char, k: nat)
    requires k < |s| && s[k] == c && c !in s[..k]
    ensures IndexOf(s, c) == k
  {
  }

  /** The pieces of s between the occurrences of c: one more piece than
      there are separators, none of them holding c. */
  function Pieces(s: string, c: char): (r: seq<string>)
    ensures |r| >= 1
    ensures forall p :: p in r ==> c !in p
    decreases |s|
  {
    if c !in s then [s]
    else
      var i := IndexOf(s, c);
      [s[..i]] + Pieces(s[i + 1..], c)
  }

  /** The pieces put back together, c between each two. */
  function Join(pieces: seq<string>, c: char): string
    requires |pieces| >= 1
  {
    if |pieces| == 1 then pieces[0] else pieces[0] + [c] + Join(pieces[1..], c)
  }

  /** Cutting at every separator and joining again gives the string back. */
  lemma {:induction false} JoinPieces(s: string, c: char)
    ensures Join(Pieces(s, c), c) == s
    decreases |s|
  {
    if c in s {
      var i := IndexOf(s, c);
      JoinPieces(s[i + 1..], c);
      assert s == s[..i] + [c] + s[i + 1..];
    }
  }

  /** Joining pieces free of the separator and cutting again gives the
      pieces back. */
  lemma {:induction false} PiecesJoin(pieces: seq<string>, c: char)
    requires |pieces| >= 1 && forall p :: p in pieces ==> c !in p
    ensures Pieces(Join(pieces, c), c) == pieces
    decreases |pieces|
  {
    if |pieces| > 1 {
      var s := Join(pieces, c);
      var rest := Join(pieces[1..], c);
      assert s == pieces[0] + [c] + rest;
      assert s[|pieces[0]|] == c;
      assert s[..|pieces[0]|] == pieces[0];
      assert pieces[0] in pieces;
      IndexOfUnique(s, c, |pieces[0]|);
      assert s[|pieces[0]| + 1..] == rest;
      PiecesJoin(pieces[1..], c);
      assert pieces == [pieces[0]] + pieces[1..];
    }
  }

  /** The list without its trailing empty strings. */
  function DropTrailingEmpty(ps: seq<string>): (r: seq<string>)
    ensures |r| <= |ps| && r == ps[..|r|]
    ensures forall k :: |r| <= k < |ps| ==> ps[k] == ""
    ensures r == [] || r[|r| - 1] != ""
  {
    if ps == [] || ps[|ps| - 1] != "" then ps else DropTrailingEmpty(ps[..|ps| - 1])
  }

  /** String.split with a one-character separator and no limit: a string
      without the separator is its only field (so "" gives one empty
      field); otherwise the pieces, less the empty ones at the end. */
  function Split(s: string, c: char): (r: seq<string>)
    ensures forall p :: p in r ==> c !in p
    ensures c !in s ==> r == [s]
    ensures c in s ==> r == DropTrailingEmpty(Pieces(s, c))
  {
    if c !in s then [s] else DropTrailingEmpty(Pieces(s, c))
  }

  /** Splitting the join of two or more separator-free fields, the last
      of them not empty, gives back the fields. */
  lemma SplitJoin(pieces: seq<string>, c: char)
    requires |pieces| >= 2 && pieces[|pieces| - 1] != ""
    requires forall p :: p in pieces ==> c !in p
    ensures Split(Join(pieces, c), c) == pieces
  {
    var s := Join(pieces, c);
    PiecesJoin(pieces, c);
    assert s == pieces[0] + [c] + Join(pieces[1..], c);
    assert s[|pieces[0]|] == c;
    assert DropTrailingEmpty(pieces) == pieces;
  }

  const IntMin: int := -0x8000_0000
  const IntMax: int := 0x7fff_ffff

  predicate IsDigit(c: char) {
    '0' <= c <= '9'
  }

  predicate AllDigits(s: string) {
    forall i :: 0 <= i < |s| ==> IsDigit(s[i])
  }

  /** The value of a string of decimal digits. */
  function DigitsValue(d: string): nat
    requires AllDigits(d)
  {
    if d == [] then 0 else 10 * DigitsValue(d[..|d| - 1]) + (d[|d| - 1] as int - '0' as int)
  }

  /** The text after an optional leading sign. */
  function SignedDigits(s: string): string
    requires s != []
  {
    if s[0] == '-' || s[0] == '+' then s[1..] else s
  }

  /** The value of an optional sign followed by decimal digits. */
  function SignedValue(s: string): int
    requires s != [] && AllDigits(SignedDigits(s))
  {
    if s[0] == '-' then -(DigitsValue(SignedDigits(s)) as int) else DigitsValue(SignedDigits(s))
  }

  /** Integer.parseInt: an optional sign then at least one decimal digit,
      the value fitting in 32 bits; anything else is a NumberFormatException. */
  function ParseInt(s: string): (r: Option<int>)
    ensures r.Some? ==> IntMin <= r.value <= IntMax
    ensures r.Some? ==> s != [] && (IsDigit(s[0]) || s[0] == '-' || s[0] == '+')
    ensures (s == [] || s == "-" || s == "+") ==> r.None?
    // accepted exactly when an optional sign is followed by decimal digits
    // only, whose signed value fits in 32 bits; that value is the result
    ensures r.Some? <==> s != [] && SignedDigits(s) != [] && AllDigits(SignedDigits(s)) &&
                         IntMin <= SignedValue(s) <= IntMax
    ensures r.Some? ==> r.value == SignedValue(s)
  {
    if s == [] then None
    else
      var signed := s[0] == '-' || s[0] == '+';
      var digits := if signed then s[1..] else s;
      if digits == [] || !AllDigits(digits) then None
      else
        var v: int := if s[0] == '-' then -(DigitsValue(digits) as int) else DigitsValue(digits);
        if IntMin <= v <= IntMax then Some(v) else None
  }

  /** A plus sign and leading zeros are read; a trailing non-digit is refused. */
  lemma ParseIntExamples()
    ensures ParseInt("+7") == Some(7)
    ensures ParseInt("007") == Some(7)
    ensures ParseInt("-12") == Some(-12)
    ensures ParseInt("1a") == None
  {
    assert SignedDigits("+7") == "7";
    assert DigitsValue("7") == 7;
    assert DigitsValue("00") == 0 by {
      assert "00"[..1] == "0";
      assert DigitsValue("0") == 0;
    }
    assert "007"[..2] == "00";
    assert DigitsValue("1") == 1;
    assert "12"[..1] == "1";
    assert SignedDigits("-12") == "12";
    assert !IsDigit("1a"[1]);
  }

  /** The decimal writing of a natural number, without leading zeros. */
  function NatToString(n: nat): (r: string)
    ensures r != [] && AllDigits(r)
  {
    var d := [('0' as int + n % 10) as char];
    if n < 10 then d else NatToString(n / 10) + d
  }

  /** Integer.toString. */
  function IntToString(n: int): string {
    if n < 0 then "-" + NatToString(-n) else NatToString(n)
  }

  lemma {:induction false} NatToStringValue(n: nat)
    ensures DigitsValue(NatToString(n)) == n
  {
    var r := NatToString(n);
    if n >= 10 {
      NatToStringValue(n / 10);
      assert r[..|r| - 1] == NatToString(n / 10);
    }
  }

  /** parseInt reads back every 32-bit value toString writes. */
  lemma ParseIntToString(n: int)
    requires IntMin <= n <= IntMax
    ensures ParseInt(IntToString(n)) == Some(n)
  {
    var s := IntToString(n);
    if n < 0 {
      NatToStringValue(-n);
      assert s[1..] == NatToString(-n);
    } else {
      NatToStringValue(n);
    }
  }
}
