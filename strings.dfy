/**
 * The few JavaScript string operations the request parsers rely on:
 * `trim`, `indexOf`, `split` on one character, `join`, `split(/\s+/)`,
 * ASCII `toLowerCase`, removal of one character, and `Number()` restricted
 * to decimal integers.
 */
module Strings {
  import opened Wrappers

  /** JavaScript's WhiteSpace and LineTerminator characters: what `trim` strips and `\s` matches. */
  predicate IsSpace(c: char) {
    c == ' ' || c == '\t' || c == '\n' || c == '\U{000B}' || c == '\U{000C}' || c == '\r'
    || c == '\U{00A0}' || c == '\U{1680}' || ('\U{2000}' <= c <= '\U{200A}')
    || c == '\U{2028}' || c == '\U{2029}' || c == '\U{202F}' || c == '\U{205F}'
    || c == '\U{3000}' || c == '\U{FEFF}'
  }

  /** The characters a regular expression's `.` does not match. */
  predicate IsLineTerminator(c: char) {
    c == '\n' || c == '\r' || c == '\U{2028}' || c == '\U{2029}'
  }

  predicate NoSpace(s: string) {
    forall i :: 0 <= i < |s| ==> !IsSpace(s[i])
  }

  /** The length of the white-space run `s` starts with. */
  function LeadingSpaces(s: string): (n: nat)
    ensures n <= |s|
    ensures forall i :: 0 <= i < n ==> IsSpace(s[i])
    ensures n == |s| || !IsSpace(s[n])
  {
    if |s| > 0 && IsSpace(s[0]) then 1 + LeadingSpaces(s[1..]) else 0
  }

  function TrimStart(s: string): (r: string)
    ensures |r| <= |s|
    ensures r == [] || !IsSpace(r[0])
  {
    s[LeadingSpaces(s)..]
  }

  function TrimEnd(s: string): (r: string)
    ensures |r| <= |s| && r == s[..|r|]
    ensures forall i :: |r| <= i < |s| ==> IsSpace(s[i])
    ensures r == [] || !IsSpace(r[|r| - 1])
  {
    if |s| > 0 && IsSpace(s[|s| - 1]) then TrimEnd(s[..|s| - 1]) else s
  }

  /** `String.prototype.trim`: the longest slice without surrounding white space. */
  function Trim(s: string): (r: string)
    ensures |r| <= |s|
    ensures r == [] || (!IsSpace(r[0]) && !IsSpace(r[|r| - 1]))
  {
    TrimEnd(TrimStart(s))
  }

  lemma TrimOfTrimmed(s: string)
    requires s == [] || (!IsSpace(s[0]) && !IsSpace(s[|s| - 1]))
    ensures Trim(s) == s
  {
  }

  /** `s.indexOf(c)`: the first position of `c`, or -1. */
  function IndexOf(s: string, c: char): (i: int)
    ensures -1 <= i < |s|
    ensures 0 <= i ==> s[i] == c
  {
    if |s| == 0 then -1
    else if s[0] == c then 0
    else
      var j := IndexOf(s[1..], c);
      assert s == [s[0]] + s[1..];
      if j < 0 then -1 else j + 1
  }

  /** The position found is the first: `c` does not occur before it, nor anywhere when none is found. */
  lemma {:induction false} IndexOfIsFirst(s: string, c: char)
    ensures IndexOf(s, c) == -1 <==> c !in s
    ensures 0 <= IndexOf(s, c) ==> c !in s[..IndexOf(s, c)]
    decreases |s|
  {
    if |s| > 0 && s[0] != c {
      IndexOfIsFirst(s[1..], c);
      var j := IndexOf(s[1..], c);
      assert s == [s[0]] + s[1..];
      if j >= 0 {
        assert s[..j + 1] == [s[0]] + s[1..][..j];
      }
    }
  }

  /** `s.split(c)` for a one-character separator. */
  function Split(s: string, c: char): (parts: seq<string>)
    ensures |parts| >= 1
    decreases |s|
  {
    var i := IndexOf(s, c);
    if i < 0 then [s] else [s[..i]] + Split(s[i + 1..], c)
  }

  /** Part `k` does not contain the separator. */
  lemma {:induction false} SplitPartHasNoSeparator(s: string, c: char, k: nat)
    requires k < |Split(s, c)|
    ensures c !in Split(s, c)[k]
    decreases |s|
  {
    IndexOfIsFirst(s, c);
    var i := IndexOf(s, c);
    if i >= 0 {
      var rest := Split(s[i + 1..], c);
      assert Split(s, c) == [s[..i]] + rest;
      if k > 0 {
        SplitPartHasNoSeparator(s[i + 1..], c, k - 1);
      }
    }
  }

  /** No part contains the separator. */
  lemma SplitHasNoSeparator(s: string, c: char)
    ensures forall k :: 0 <= k < |Split(s, c)| ==> c !in Split(s, c)[k]
  {
    forall k | 0 <= k < |Split(s, c)| ensures c !in Split(s, c)[k] {
      SplitPartHasNoSeparator(s, c, k);
    }
  }

  /** `parts.join(sep)`. */
  function JoinBy(parts: seq<string>, sep: string): string {
    if |parts| == 0 then ""
    else if |parts| == 1 then parts[0]
    else parts[0] + sep + JoinBy(parts[1..], sep)
  }

  function Join(parts: seq<string>, c: char): string {
    JoinBy(parts, [c])
  }

  lemma {:induction false} JoinSplit(s: string, c: char)
    ensures Join(Split(s, c), c) == s
    decreases |s|
  {
    var i := IndexOf(s, c);
    if i >= 0 {
      var rest := Split(s[i + 1..], c);
      JoinSplit(s[i + 1..], c);
      assert ([s[..i]] + rest)[1..] == rest;
      assert s == s[..i] + [c] + s[i + 1..];
    }
  }

  lemma {:induction false} SplitJoin(parts: seq<string>, c: char)
    requires |parts| >= 1
    requires forall k :: 0 <= k < |parts| ==> c !in parts[k]
    ensures Split(Join(parts, c), c) == parts
  {
    if |parts| > 1 {
      var s := Join(parts, c);
      var tail := Join(parts[1..], c);
      assert s == parts[0] + [c] + tail;
      assert s[..|parts[0]|] == parts[0];
      IndexOfAfterPrefix(parts[0], tail, c);
      assert s[|parts[0]| + 1..] == tail;
      SplitJoin(parts[1..], c);
      assert parts == [parts[0]] + parts[1..];
    }
  }

  lemma IndexOfAfterPrefix(a: string, b: string, c: char)
    requires c !in a
    ensures IndexOf(a + [c] + b, c) == |a|
  {
    var s := a + [c] + b;
    IndexOfIsFirst(s, c);
    assert s[|a|] == c;
    assert s[..|a|] == a;
    assert s[..|a| + 1] == a + [c];
    assert forall j :: 0 <= j < |a| ==> s[j] == a[j];
  }

  /** Trimming never brings in a character that was not there. */
  lemma TrimKeepsAbsent(s: string, c: char)
    requires c !in s
    ensures c !in Trim(s)
  {
    var t := TrimStart(s);
    assert t == s[LeadingSpaces(s)..];
    assert c !in t;
    var r := TrimEnd(t);
    assert r == t[..|r|];
  }

  predicate NoLineTerminator(s: string) {
    forall i :: 0 <= i < |s| ==> !IsLineTerminator(s[i])
  }

  /** The position of the first line terminator, or the length: how far a regular-expression `.*` can reach. */
  function LineEnd(s: string): (n: nat)
    ensures n <= |s|
    ensures n < |s| ==> IsLineTerminator(s[n])
  {
    if |s| == 0 || IsLineTerminator(s[0]) then 0 else 1 + LineEnd(s[1..])
  }

  lemma {:induction false} LineEndOfOneLine(s: string)
    requires NoLineTerminator(s)
    ensures LineEnd(s) == |s|
    decreases |s|
  {
    if |s| > 0 {
      LineEndOfOneLine(s[1..]);
    }
  }

  /** Joining single-line parts with a separator that ends no line gives one line. */
  lemma {:induction false} JoinNoLineTerminator(parts: seq<string>, c: char)
    requires !IsLineTerminator(c)
    requires forall k :: 0 <= k < |parts| ==> NoLineTerminator(parts[k])
    ensures NoLineTerminator(Join(parts, c))
  {
    if |parts| > 1 {
      JoinNoLineTerminator(parts[1..], c);
      var tail := Join(parts[1..], c);
      assert Join(parts, c) == parts[0] + [c] + tail;
      assert NoLineTerminator(parts[0]);
    }
  }

  /** `s.lastIndexOf(c)`: the last position of `c`, or -1. */
  function LastIndexOf(s: string, c: char): (i: int)
    ensures -1 <= i < |s|
    ensures 0 <= i ==> s[i] == c
  {
    if |s| == 0 then -1
    else if s[|s| - 1] == c then |s| - 1
    else LastIndexOf(s[..|s| - 1], c)
  }

  /** No `c` follows the position found. */
  lemma {:induction false} LastIndexOfIsLast(s: string, c: char, j: int)
    requires LastIndexOf(s, c) < j < |s|
    ensures s[j] != c
    decreases |s|
  {
    if s[|s| - 1] != c && j < |s| - 1 {
      LastIndexOfIsLast(s[..|s| - 1], c, j);
    }
  }

  /** The first white-space position, or -1. */
  function FirstSpace(s: string): (i: int)
    ensures -1 <= i < |s|
    ensures i == -1 <==> NoSpace(s)
    ensures 0 <= i ==> IsSpace(s[i]) && NoSpace(s[..i])
  {
    if |s| == 0 then -1
    else if IsSpace(s[0]) then 0
    else
      var j := FirstSpace(s[1..]);
      assert s == [s[0]] + s[1..];
      if j < 0 then -1 else
        assert s[..j + 1] == [s[0]] + s[1..][..j];
        j + 1
  }

  /**
   * `s.split(/\s+/)`: the pieces between maximal runs of white space; a leading
   * or trailing run yields an empty first or last piece.
   */
  function SplitWs(s: string): (parts: seq<string>)
    ensures |parts| >= 1
    decreases |s|
  {
    var i := FirstSpace(s);
    if i < 0 then [s]
    else
      var rest := TrimStart(s[i..]);
      TrimStartShrinks(s[i..]);
      [s[..i]] + SplitWs(rest)
  }

  /** The empty string is one empty token. */
  lemma SplitWsEmpty()
    ensures SplitWs("") == [""]
  {
  }

  lemma TrimStartShrinks(s: string)
    requires |s| > 0 && IsSpace(s[0])
    ensures |TrimStart(s)| < |s|
  {
  }

  /** A token, one space and a text that does not start with white space split into the token and that text's pieces. */
  lemma SplitWsStep(t0: string, tail: string)
    requires t0 != [] && NoSpace(t0)
    requires tail != [] && !IsSpace(tail[0])
    ensures SplitWs(t0 + " " + tail) == [t0] + SplitWs(tail)
  {
    var s := t0 + " " + tail;
    assert s[..|t0|] == t0;
    FirstSpaceAt(s, |t0|);
    assert s[|t0|..] == " " + tail;
    assert TrimStart(" " + tail) == tail by {
      assert LeadingSpaces(" " + tail) == 1 + LeadingSpaces(tail) by {
        assert (" " + tail)[1..] == tail;
      }
    }
  }

  /** Non-empty tokens without white space, joined by single spaces, split back into themselves. */
  lemma {:induction false} SplitWsJoin(tokens: seq<string>)
    requires |tokens| >= 1
    requires forall k :: 0 <= k < |tokens| ==> tokens[k] != [] && NoSpace(tokens[k])
    ensures SplitWs(JoinBy(tokens, " ")) == tokens
  {
    if |tokens| == 1 {
      assert FirstSpace(tokens[0]) == -1;
    } else {
      JoinHead(tokens[1..]);
      SplitWsStep(tokens[0], JoinBy(tokens[1..], " "));
      SplitWsJoin(tokens[1..]);
      assert tokens == [tokens[0]] + tokens[1..];
    }
  }

  lemma FirstSpaceAt(s: string, k: int)
    requires 0 <= k < |s| && IsSpace(s[k]) && NoSpace(s[..k])
    ensures FirstSpace(s) == k
  {
    var i := FirstSpace(s);
    forall j | 0 <= j < k ensures !IsSpace(s[j]) {
      assert s[..k][j] == s[j];
    }
    forall j | 0 <= j < i ensures !IsSpace(s[j]) {
      assert s[..i][j] == s[j];
    }
  }

  /** A join of non-empty tokens starts with the first token's first character. */
  lemma JoinHead(tokens: seq<string>)
    requires |tokens| >= 1 && tokens[0] != []
    ensures JoinBy(tokens, " ") != [] && JoinBy(tokens, " ")[0] == tokens[0][0]
  {
  }

  /** ASCII `toLowerCase` of one character. */
  function Lower(c: char): (r: char)
    ensures 'A' <= c <= 'Z' ==> r as int == c as int + 32
    ensures !('A' <= c <= 'Z') ==> r == c
  {
    if 'A' <= c <= 'Z' then (c as int + 32) as char else c
  }

  function LowerString(s: string): (r: string)
    ensures |r| == |s|
    ensures forall i :: 0 <= i < |s| ==> r[i] == Lower(s[i])
  {
    seq(|s|, i requires 0 <= i < |s| => Lower(s[i]))
  }

  /** `s.replace(/c/g, '')`: every occurrence of `c` removed, the rest in order. */
  function Remove(s: string, c: char): (r: string)
    ensures c !in r
    ensures |r| <= |s|
    ensures c !in s ==> r == s
  {
    if |s| == 0 then ""
    else (if s[0] == c then "" else [s[0]]) + Remove(s[1..], c)
  }

  predicate IsDigit(c: char) {
    '0' <= c <= '9'
  }

  predicate AllDigits(s: string) {
    forall i :: 0 <= i < |s| ==> IsDigit(s[i])
  }

  /** The value of a run of decimal digits, most significant first. */
  function DigitsValue(s: string): nat
    requires AllDigits(s)
  {
    if |s| == 0 then 0 else 10 * DigitsValue(s[..|s| - 1]) + (s[|s| - 1] as int - '0' as int)
  }

  /**
   * `Number(s)` for the strings this model admits: surrounding white space is
   * ignored, an empty string is 0, and otherwise an optionally signed run of
   * decimal digits is its value; anything else is NaN, here None.
   */
  function ParseNumber(s: string): (r: Option<int>)
    ensures var t := Trim(s);
      r.None? <==> (t != "" && !AllDigits(t)
                    && !(|t| > 1 && (t[0] == '-' || t[0] == '+') && AllDigits(t[1..])))
  {
    var t := Trim(s);
    if t == "" then Some(0)
    else if |t| > 1 && t[0] == '-' && AllDigits(t[1..]) then Some(-(DigitsValue(t[1..]) as int))
    else if |t| > 1 && t[0] == '+' && AllDigits(t[1..]) then Some(DigitsValue(t[1..]))
    else if AllDigits(t) then Some(DigitsValue(t))
    else None
  }

  function DigitChar(d: nat): char
    requires d < 10
  {
    ('0' as int + d) as char
  }

  /** Decimal notation of a natural number, without leading zeros. */
  function ShowNat(n: nat): (s: string)
    ensures |s| >= 1 && AllDigits(s)
  {
    if n < 10 then [DigitChar(n)] else ShowNat(n / 10) + [DigitChar(n % 10)]
  }

  /** Decimal notation of an integer, as `String(n)` writes it. */
  function Show(n: int): string {
    if n < 0 then "-" + ShowNat(-n) else ShowNat(n)
  }

  lemma {:induction false} DigitsValueShowNat(n: nat)
    ensures DigitsValue(ShowNat(n)) == n
  {
    if n >= 10 {
      var s := ShowNat(n);
      assert s[..|s| - 1] == ShowNat(n / 10);
      DigitsValueShowNat(n / 10);
    }
  }

  /** `Number(String(n)) == n`: printing an integer and parsing it back gives the integer. */
  lemma ParseShow(n: int)
    ensures ParseNumber(Show(n)) == Some(n)
  {
    var s := Show(n);
    var digits := ShowNat(if n < 0 then -n else n);
    DigitsValueShowNat(if n < 0 then -n else n);
    assert !IsSpace(s[0]) && !IsSpace(s[|s| - 1]);
    TrimOfTrimmed(s);
    if n < 0 {
      assert s[1..] == digits;
      assert !AllDigits(s);
    }
  }
}
