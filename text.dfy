/**
 * String operations the JavaScript code relies on: splitting on a separator
 * and joining again, splitting on whitespace runs (`split(/\s+/)`), lower
 * casing, trimming, number formatting and zero padding.
 *
 * Whitespace and case are ASCII only: JavaScript's `\s`, `trim` and
 * `toLowerCase` also know the other Unicode spaces and letters.
 */
module Text {

  predicate IsSpace(c: char) {
    c == ' ' || c == '\t' || c == '\n' || c == '\r' || c == '\U{000B}' || c == '\U{000C}'
  }

  predicate IsDigit(c: char) {
    '0' <= c <= '9'
  }

  // ---------------------------------------------------------------------
  // split(sep) / join(sep)
  // ---------------------------------------------------------------------

  /** `s.split(sep)` for a one-character separator: "" gives [""]. */
  function Split(s: string, sep: char): (parts: seq<string>)
    ensures |parts| >= 1
    decreases |s|
  {
    if |s| == 0 then [""]
    else
      var rest := Split(s[1..], sep);
      if s[0] == sep then [""] + rest
      else [[s[0]] + rest[0]] + rest[1..]
  }

  /** `parts.join(sep)`. */
  function Join(parts: seq<string>, sep: char): string
    decreases |parts|
  {
    if |parts| == 0 then ""
    else if |parts| == 1 then parts[0]
    else parts[0] + [sep] + Join(parts[1..], sep)
  }

  /** No piece of a split contains the separator. */
  lemma {:induction false} SplitPiecesLackSeparator(s: string, sep: char)
    ensures forall i :: 0 <= i < |Split(s, sep)| ==> sep !in Split(s, sep)[i]
    decreases |s|
  {
    if |s| > 0 {
      SplitPiecesLackSeparator(s[1..], sep);
    }
  }

  lemma JoinConsHead(c: char, parts: seq<string>, sep: char)
    requires |parts| >= 1
    ensures Join([[c] + parts[0]] + parts[1..], sep) == [c] + Join(parts, sep)
  {
    var p := [[c] + parts[0]] + parts[1..];
    assert p[1..] == parts[1..];
  }

  /** Joining the pieces of a split with the same separator gives the string back. */
  lemma {:induction false} JoinSplit(s: string, sep: char)
    ensures Join(Split(s, sep), sep) == s
    decreases |s|
  {
    if |s| > 0 {
      var rest := Split(s[1..], sep);
      JoinSplit(s[1..], sep);
      if s[0] == sep {
        assert ([""] + rest)[1..] == rest;
        assert s == [sep] + s[1..];
      } else {
        JoinConsHead(s[0], rest, sep);
        assert s == [s[0]] + s[1..];
      }
    }
  }

  /** Joining a prefix of the pieces gives a prefix of the joined string. */
  lemma {:induction false} JoinTakeIsPrefix(parts: seq<string>, k: nat, sep: char)
    requires k <= |parts|
    ensures Join(parts[..k], sep) <= Join(parts, sep)
    decreases |parts|
  {
    if k == 0 {
    } else if |parts| == 1 {
      assert parts[..k] == parts;
    } else if k == 1 {
      assert parts[..k] == [parts[0]];
    } else {
      JoinTakeIsPrefix(parts[1..], k - 1, sep);
      assert parts[..k][1..] == parts[1..][..k - 1];
    }
  }

  /**
   * `s.split(' ').slice(0, n).join(' ')`: the first n space-separated words,
   * which is a prefix of `s`.
   */
  function FirstWords(s: string, n: nat): (w: string)
    ensures w <= s
  {
    var parts := Split(s, ' ');
    var k := if n <= |parts| then n else |parts|;
    JoinTakeIsPrefix(parts, k, ' ');
    JoinSplit(s, ' ');
    assert parts[..k] == parts[..k];
    Join(parts[..k], ' ')
  }

  /** With fewer than n spaces the first n words are the whole string. */
  lemma FirstWordsOfShortText(s: string, n: nat)
    requires |Split(s, ' ')| <= n
    ensures FirstWords(s, n) == s
  {
    var parts := Split(s, ' ');
    assert parts[..|parts|] == parts;
    JoinSplit(s, ' ');
  }

  // ---------------------------------------------------------------------
  // split(/\s+/)
  // ---------------------------------------------------------------------

  /** Drops the leading run of whitespace. */
  function DropSpaces(s: string): (r: string)
    ensures |r| <= |s| && (|s| > 0 && IsSpace(s[0]) ==> |r| < |s|)
    ensures r == s[|s| - |r|..]
    ensures |r| > 0 ==> !IsSpace(r[0])
  {
    if |s| > 0 && IsSpace(s[0]) then DropSpaces(s[1..]) else s
  }

  /**
   * `s.split(/\s+/)`: a leading run gives an empty first piece and a
   * trailing run an empty last piece; "" gives [""].
   */
  function SplitWhitespace(s: string): (parts: seq<string>)
    ensures |parts| >= 1
    decreases |s|
  {
    if |s| == 0 then [""]
    else if IsSpace(s[0]) then [""] + SplitWhitespace(DropSpaces(s))
    else
      var rest := SplitWhitespace(s[1..]);
      [[s[0]] + rest[0]] + rest[1..]
  }

  /** The characters of `s` that are not whitespace, in order. */
  function NonSpace(s: string): string {
    if |s| == 0 then ""
    else if IsSpace(s[0]) then NonSpace(s[1..])
    else [s[0]] + NonSpace(s[1..])
  }

  function Concat(parts: seq<string>): string {
    if |parts| == 0 then "" else parts[0] + Concat(parts[1..])
  }

  lemma NonSpaceOfSpaces(s: string)
    ensures NonSpace(s) == NonSpace(DropSpaces(s))
  {
  }

  /** Put together, the pieces of a whitespace split are the non-whitespace characters. */
  lemma {:induction false} SplitWhitespaceKeepsNonSpace(s: string)
    ensures Concat(SplitWhitespace(s)) == NonSpace(s)
    decreases |s|
  {
    if |s| == 0 {
    } else if IsSpace(s[0]) {
      var d := DropSpaces(s);
      SplitWhitespaceKeepsNonSpace(d);
      NonSpaceOfSpaces(s);
      assert ([""] + SplitWhitespace(d))[1..] == SplitWhitespace(d);
    } else {
      var rest := SplitWhitespace(s[1..]);
      SplitWhitespaceKeepsNonSpace(s[1..]);
      var parts := [[s[0]] + rest[0]] + rest[1..];
      assert parts[1..] == rest[1..];
      calc {
        Concat(parts);
        ([s[0]] + rest[0]) + Concat(rest[1..]);
        [s[0]] + (rest[0] + Concat(rest[1..]));
        [s[0]] + Concat(rest);
      }
    }
  }

  predicate Word(w: string) {
    forall j :: 0 <= j < |w| ==> !IsSpace(w[j])
  }

  /** No piece of a whitespace split holds whitespace. */
  lemma {:induction false} SplitWhitespacePiecesAreWords(s: string)
    ensures forall i :: 0 <= i < |SplitWhitespace(s)| ==> Word(SplitWhitespace(s)[i])
    decreases |s|
  {
    if |s| == 0 {
    } else if IsSpace(s[0]) {
      var d := DropSpaces(s);
      SplitWhitespacePiecesAreWords(d);
      var parts := [""] + SplitWhitespace(d);
      forall i | 0 <= i < |parts| ensures Word(parts[i]) {
        if i > 0 {
          assert parts[i] == SplitWhitespace(d)[i - 1];
        }
      }
    } else {
      var rest := SplitWhitespace(s[1..]);
      SplitWhitespacePiecesAreWords(s[1..]);
      var parts := [[s[0]] + rest[0]] + rest[1..];
      assert Word(rest[0]);
      forall i | 0 <= i < |parts| ensures Word(parts[i]) {
        if i > 0 {
          assert parts[i] == rest[i];
        }
      }
    }
  }

  /** Text without whitespace is one word. */
  lemma {:induction false} SplitWhitespaceOfWord(s: string)
    requires forall i :: 0 <= i < |s| ==> !IsSpace(s[i])
    ensures SplitWhitespace(s) == [s]
    decreases |s|
  {
    if |s| > 0 {
      SplitWhitespaceOfWord(s[1..]);
      assert [s[0]] + s[1..] == s;
    }
  }

  // ---------------------------------------------------------------------
  // Case, trimming
  // ---------------------------------------------------------------------

  function LowerChar(c: char): char {
    if 'A' <= c <= 'Z' then (c as int + 32) as char else c
  }

  /** `s.toLowerCase()` for ASCII letters. */
  function ToLower(s: string): (r: string)
    ensures |r| == |s|
    ensures forall i :: 0 <= i < |s| ==> r[i] == LowerChar(s[i])
  {
    if |s| == 0 then "" else [LowerChar(s[0])] + ToLower(s[1..])
  }

  /** Lower casing is idempotent. */
  lemma ToLowerIdempotent(s: string)
    ensures ToLower(ToLower(s)) == ToLower(s)
  {
    var l := ToLower(s);
    assert forall i :: 0 <= i < |l| ==> ToLower(l)[i] == l[i];
  }

  /** `x.toLowerCase() === y.toLowerCase()`, compared character by character. */
  predicate SameIgnoringCase(x: string, y: string)
    decreases |x|
  {
    |x| == |y| && (|x| == 0 || (LowerChar(x[0]) == LowerChar(y[0]) && SameIgnoringCase(x[1..], y[1..])))
  }

  /** Comparing character by character is comparing the lower-cased texts. */
  lemma {:induction false} SameIgnoringCaseIff(x: string, y: string)
    ensures SameIgnoringCase(x, y) <==> ToLower(x) == ToLower(y)
    decreases |x|
  {
    if |x| > 0 && |x| == |y| {
      SameIgnoringCaseIff(x[1..], y[1..]);
      assert ToLower(x) == [LowerChar(x[0])] + ToLower(x[1..]);
      assert ToLower(y) == [LowerChar(y[0])] + ToLower(y[1..]);
      if ToLower(x) == ToLower(y) {
        assert ToLower(x)[1..] == ToLower(x[1..]);
        assert ToLower(y)[1..] == ToLower(y[1..]);
      }
    }
  }

  function TrimStart(s: string): (r: string)
    ensures |r| <= |s| && r == s[|s| - |r|..]
    ensures |r| > 0 ==> !IsSpace(r[0])
  {
    DropSpaces(s)
  }

  function TrimEnd(s: string): (r: string)
    ensures |r| <= |s| && r == s[..|r|]
    ensures |r| > 0 ==> !IsSpace(r[|r| - 1])
  {
    if |s| > 0 && IsSpace(s[|s| - 1]) then TrimEnd(s[..|s| - 1]) else s
  }

  /** `s.trim()`: the string without leading and trailing whitespace. */
  function Trim(s: string): (r: string)
    ensures |r| <= |s|
    ensures |r| > 0 ==> !IsSpace(r[0]) && !IsSpace(r[|r| - 1])
    ensures forall i :: 0 <= i < |r| ==> r[i] in s
  {
    var t := TrimStart(s);
    var r := TrimEnd(t);
    forall i | 0 <= i < |r|
      ensures r[i] in s
    {
      assert r[i] == t[i] == s[|s| - |t| + i];
    }
    r
  }

  /** Dropping the leading spaces leaves "" exactly for a text of spaces. */
  lemma {:induction false} DropSpacesBlank(s: string)
    ensures DropSpaces(s) == "" <==> forall i :: 0 <= i < |s| ==> IsSpace(s[i])
    decreases |s|
  {
    if |s| > 0 && IsSpace(s[0]) {
      DropSpacesBlank(s[1..]);
      assert forall i :: 1 <= i < |s| ==> s[i] == s[1..][i - 1];
    }
  }

  /** Trailing spaces never reach a first character that is not a space. */
  lemma {:induction false} TrimEndKeepsHead(s: string)
    requires |s| > 0 && !IsSpace(s[0])
    ensures |TrimEnd(s)| > 0
    decreases |s|
  {
    if IsSpace(s[|s| - 1]) {
      TrimEndKeepsHead(s[..|s| - 1]);
    }
  }

  /** `s.trim()` is "" exactly when s is empty or all whitespace. */
  lemma TrimBlank(s: string)
    ensures Trim(s) == "" <==> forall i :: 0 <= i < |s| ==> IsSpace(s[i])
  {
    DropSpacesBlank(s);
    if TrimStart(s) != "" {
      TrimEndKeepsHead(TrimStart(s));
    }
  }

  // ---------------------------------------------------------------------
  // Numbers as decimal text
  // ---------------------------------------------------------------------

  function DigitChar(d: nat): char
    requires d < 10
  {
    ['0', '1', '2', '3', '4', '5', '6', '7', '8', '9'][d]
  }

  /** The value of a decimal digit; any other character counts as 0. */
  function DigitValue(c: char): nat {
    if IsDigit(c) then (c as int) - ('0' as int) else 0
  }

  /** `n.toString()` for a natural number: decimal digits, no leading zero. */
  function NatToString(n: nat): (s: string)
    ensures |s| >= 1
    ensures forall i :: 0 <= i < |s| ==> IsDigit(s[i])
    ensures |s| > 1 ==> s[0] != '0'
    ensures n < 10 <==> |s| == 1
    decreases n
  {
    if n < 10 then [DigitChar(n)] else NatToString(n / 10) + [DigitChar(n % 10)]
  }

  /** The value of a string of decimal digits. */
  function ParseNat(s: string): nat
    decreases |s|
  {
    if |s| == 0 then 0 else 10 * ParseNat(s[..|s| - 1]) + DigitValue(s[|s| - 1])
  }

  /** Reading back the decimal text of a number gives the number. */
  lemma {:induction false} ParseNatToString(n: nat)
    ensures ParseNat(NatToString(n)) == n
    decreases n
  {
    var s := NatToString(n);
    if n >= 10 {
      ParseNatToString(n / 10);
      assert s[..|s| - 1] == NatToString(n / 10);
    }
  }

  /** Different numbers have different decimal texts. */
  lemma NatToStringInjective(a: nat, b: nat)
    requires NatToString(a) == NatToString(b)
    ensures a == b
  {
    ParseNatToString(a);
    ParseNatToString(b);
  }

  /** `String(i)` for an integer index. */
  function IntToString(i: int): (s: string)
    ensures |s| >= 1
  {
    if i < 0 then "-" + NatToString(-i) else NatToString(i)
  }

  lemma IntToStringInjective(a: int, b: int)
    requires IntToString(a) == IntToString(b)
    ensures a == b
  {
    if (a < 0) != (b < 0) {
      assert false;
    } else if a < 0 {
      assert NatToString(-a) == IntToString(a)[1..];
      NatToStringInjective(-a, -b);
    } else {
      NatToStringInjective(a, b);
    }
  }

  /** `s.padStart(2, '0')`. */
  function PadStart2(s: string): (r: string)
    ensures |r| == if |s| >= 2 then |s| else 2
  {
    if |s| >= 2 then s else if |s| == 1 then ['0'] + s else ['0', '0']
  }

  /** A run of zeros reads as 0. */
  lemma {:induction false} ZerosParseToZero(z: string)
    requires forall i :: 0 <= i < |z| ==> z[i] == '0'
    ensures ParseNat(z) == 0
    decreases |z|
  {
    if |z| > 0 {
      ZerosParseToZero(z[..|z| - 1]);
    }
  }

  /** Leading zeros do not change the value read. */
  lemma {:induction false} ParseNatLeadingZeros(z: string, s: string)
    requires forall i :: 0 <= i < |z| ==> z[i] == '0'
    requires forall i :: 0 <= i < |s| ==> IsDigit(s[i])
    ensures forall i :: 0 <= i < |z + s| ==> IsDigit((z + s)[i])
    ensures ParseNat(z + s) == ParseNat(s)
    decreases |s|
  {
    if |s| == 0 {
      assert z + s == z;
      ZerosParseToZero(z);
    } else {
      ParseNatLeadingZeros(z, s[..|s| - 1]);
      assert (z + s)[..|z + s| - 1] == z + s[..|s| - 1];
    }
  }

  /** Zero padding keeps the digits and the value. */
  lemma ParseNatPadStart2(s: string)
    requires forall i :: 0 <= i < |s| ==> IsDigit(s[i])
    ensures forall i :: 0 <= i < |PadStart2(s)| ==> IsDigit(PadStart2(s)[i])
    ensures ParseNat(PadStart2(s)) == ParseNat(s)
  {
    if |s| == 1 {
      ParseNatLeadingZeros(['0'], s);
    } else if |s| == 0 {
      ParseNatLeadingZeros(['0', '0'], s);
    }
  }

  /** A number padded to two digits: at least two digits, exactly two below 100. */
  lemma PaddedNumberDigits(n: nat)
    ensures var p := PadStart2(NatToString(n));
      && |p| >= 2
      && (n < 100 ==> |p| == 2)
      && (forall i :: 0 <= i < |p| ==> IsDigit(p[i]))
  {
    if 10 <= n < 100 {
      assert NatToString(n) == NatToString(n / 10) + [DigitChar(n % 10)];
    }
  }

  /** A number padded to two digits reads back as itself. */
  lemma PaddedNumberReadsBack(n: nat)
    ensures ParseNat(PadStart2(NatToString(n))) == n
  {
    ParseNatPadStart2(NatToString(n));
    ParseNatToString(n);
  }
}
