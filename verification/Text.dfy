/**
 Text helpers of the standard library that the modelled code leans on: ASCII case folding, decimal
 printing (`str(int)`, `f"{n:02d}"`) and the decimal reader `int(text)`.
 */
module Text {
  import opened Wrappers

  /** A hexadecimal SHA-256 digest is 64 characters. */
  type HexDigest = s: string | |s| == 64 witness seq(64, _ => '0')

  // ----- case folding (ASCII) -----

  function UpperChar(c: char): char {
    if 'a' <= c <= 'z' then c - 'a' + 'A' else c
  }

  function LowerChar(c: char): char {
    if 'A' <= c <= 'Z' then c - 'A' + 'a' else c
  }

  function Upper(s: string): (u: string)
    ensures |u| == |s|
    ensures forall i | 0 <= i < |s| :: u[i] == UpperChar(s[i])
  {
    seq(|s|, i requires 0 <= i < |s| => UpperChar(s[i]))
  }

  function Lower(s: string): (l: string)
    ensures |l| == |s|
    ensures forall i | 0 <= i < |s| :: l[i] == LowerChar(s[i])
  {
    seq(|s|, i requires 0 <= i < |s| => LowerChar(s[i]))
  }

  // ----- decimal printing -----

  predicate IsDigit(c: char) { '0' <= c <= '9' }

  function DigitChar(d: nat): (c: char)
    requires d < 10
    ensures IsDigit(c) && DigitValue(c) == d
  {
    '0' + d as char
  }

  function DigitValue(c: char): (d: nat)
    requires IsDigit(c)
    ensures d < 10
  {
    (c - '0') as int
  }

  predicate AllDigits(s: string) { forall c | c in s :: IsDigit(c) }

  function NatText(n: nat): (s: string)
    ensures |s| > 0 && AllDigits(s)
  {
    if n < 10 then [DigitChar(n)] else NatText(n / 10) + [DigitChar(n % 10)]
  }

  function IntText(n: int): string {
    if n < 0 then "-" + NatText(-n) else NatText(n)
  }

  // ----- decimal reading: int(text) on ASCII text -----

  predicate IsSpace(c: char) { c == ' ' || '\t' <= c <= '\r' }

  function StripLeft(s: string): string {
    if |s| > 0 && IsSpace(s[0]) then StripLeft(s[1..]) else s
  }

  function StripRight(s: string): string {
    if |s| > 0 && IsSpace(s[|s| - 1]) then StripRight(s[..|s| - 1]) else s
  }

  /** Digits with single underscores allowed between them, read from the right. */
  function ReadDigits(s: string): Option<nat> {
    if |s| == 0 || !IsDigit(s[|s| - 1]) then None
    else if |s| == 1 then Some(DigitValue(s[0]))
    else
      var front := s[..|s| - 1];
      var high :- ReadDigits(if front[|front| - 1] == '_' then front[..|front| - 1] else front);
      Some(10 * high + DigitValue(s[|s| - 1]))
  }

  function ReadInt(s: string): Option<int> {
    ReadSigned(StripRight(StripLeft(s)))
  }

  function ReadSigned(t: string): Option<int> {
    if |t| > 0 && t[0] == '-' then
      match ReadDigits(t[1..])
      case None => None
      case Some(n) => Some(0 - n as int)
    else if |t| > 0 && t[0] == '+' then ReadDigits(t[1..])
    else ReadDigits(t)
  }

  lemma {:induction false} ReadDigitsOfNatText(n: nat)
    ensures ReadDigits(NatText(n)) == Some(n)
  {
    if n >= 10 {
      ReadDigitsOfNatText(n / 10);
      var s := NatText(n);
      assert s[..|s| - 1] == NatText(n / 10);
      assert IsDigit(NatText(n / 10)[|NatText(n / 10)| - 1]);
    }
  }

  /** Reading what was printed gives the number back. */
  lemma ReadIntOfIntText(n: int)
    ensures ReadInt(IntText(n)) == Some(n)
    ensures |IntText(n)| > 0
  {
    var m: nat := if n < 0 then -n else n;
    var digits, text := NatText(m), IntText(n);
    assert text == if n < 0 then ['-'] + digits else digits;
    assert IsDigit(digits[0]) && IsDigit(digits[|digits| - 1]);
    StripNothing(text);
    ReadSignedOfDigits(m);
  }

  lemma StripNothing(t: string)
    requires |t| > 0 && !IsSpace(t[0]) && !IsSpace(t[|t| - 1])
    ensures StripRight(StripLeft(t)) == t
  {
  }

  /** Digits, each underscore right after one of them, and a digit last. */
  predicate WellSeparated(s: string) {
    && |s| > 0 && IsDigit(s[|s| - 1])
    && forall i | 0 <= i < |s| :: IsDigit(s[i]) || (i > 0 && s[i] == '_' && IsDigit(s[i - 1]))
  }

  lemma {:induction false} ReadDigitsIff(s: string)
    ensures ReadDigits(s).Some? <==> WellSeparated(s)
  {
    if |s| > 1 && IsDigit(s[|s| - 1]) {
      var front := s[..|s| - 1];
      var high := if front[|front| - 1] == '_' then front[..|front| - 1] else front;
      ReadDigitsIff(high);
      assert forall i | 0 <= i < |high| :: high[i] == s[i];
    }
  }

  /** An underscore makes no difference to the number, nor does a plus sign. */
  lemma SeparatorIgnored(a: string, c: char)
    requires IsDigit(c) && ReadDigits(a).Some?
    ensures ReadDigits(a + "_" + [c]) == ReadDigits(a + [c]) == Some(10 * ReadDigits(a).value + DigitValue(c))
  {
    assert (a + "_" + [c])[..|a| + 1] == a + "_" && (a + "_")[..|a|] == a && (a + [c])[..|a|] == a;
  }

  lemma PlusIgnored(n: nat)
    ensures ReadInt("+" + NatText(n)) == Some(n as int)
  {
    var text := "+" + NatText(n);
    StripNothing(text);
    ReadDigitsOfNatText(n);
    assert text[1..] == NatText(n);
  }

  /** The characters that `int` skips around a number. */
  const BLANKS := " \t\n\U{0b}\U{0c}\r"

  lemma BlanksAreSpaces(c: char)
    ensures c in BLANKS <==> IsSpace(c)
  {
    assert BLANKS[0] == ' ' && BLANKS[1] == '\t' && BLANKS[2] == '\n';
    assert BLANKS[3] == 11 as char && BLANKS[4] == 12 as char && BLANKS[5] == '\r';
  }

  lemma {:induction false} StripLeftOfAppended(s: string, c: char)
    ensures StripLeft(s + [c]) == if StripLeft(s) == "" && IsSpace(c) then "" else StripLeft(s) + [c]
  {
    if s == "" {
      assert s + [c] == [c];
    } else {
      assert (s + [c])[1..] == s[1..] + [c];
      StripLeftOfAppended(s[1..], c);
    }
  }

  lemma StripRightOfAppended(s: string, c: char)
    requires IsSpace(c)
    ensures StripRight(s + [c]) == StripRight(s)
  {
    assert (s + [c])[..|s|] == s;
  }

  /** Blanks around a text make no difference to the number read. */
  lemma {:induction false} PaddingIgnored(pre: string, s: string, post: string)
    requires forall c | c in pre + post :: c in BLANKS
    ensures ReadInt(pre + s + post) == ReadInt(s)
  {
    if pre != "" {
      var rest := pre[1..] + s + post;
      assert pre + s + post == [pre[0]] + rest && pre[0] in pre + post;
      BlanksAreSpaces(pre[0]);
      PaddingIgnored(pre[1..], s, post);
    } else if post != "" {
      var (front, last) := (post[..|post| - 1], post[|post| - 1]);
      assert pre + s + post == (pre + s + front) + [last] && last in pre + post;
      BlanksAreSpaces(last);
      StripLeftOfAppended(pre + s + front, last);
      StripRightOfAppended(StripLeft(pre + s + front), last);
      PaddingIgnored(pre, s, front);
    } else {
      assert pre + s + post == s;
    }
  }

  /** Nothing but a blank may follow the last digit. */
  lemma TrailingIff(n: int, c: char)
    requires !IsDigit(c)
    ensures ReadInt(IntText(n) + [c]) == if c in BLANKS then Some(n) else None
  {
    BlanksAreSpaces(c);
    ReadIntOfIntText(n);
    if IsSpace(c) {
      assert IntText(n) + [c] == "" + IntText(n) + [c];
      PaddingIgnored("", IntText(n), [c]);
    } else {
      var t := IntText(n) + [c];
      var digits := NatText(if n < 0 then -n else n);
      assert t == (if n < 0 then "-" + digits else digits) + [c] && IsDigit(digits[0]);
      StripNothing(t);
    }
  }

  lemma ReadSignedOfDigits(m: nat)
    ensures ReadSigned(NatText(m)) == Some(m as int)
    ensures ReadSigned(['-'] + NatText(m)) == Some(0 - m as int)
  {
    ReadDigitsOfNatText(m);
    assert (['-'] + NatText(m))[1..] == NatText(m);
    assert IsDigit(NatText(m)[0]);
  }

  lemma {:induction false} ReadDigitsHasNo(s: string, bad: char)
    requires ReadDigits(s).Some?
    requires !IsDigit(bad) && bad != '_'
    ensures bad !in s
  {
    if |s| > 1 {
      var front := s[..|s| - 1];
      var high := if front[|front| - 1] == '_' then front[..|front| - 1] else front;
      ReadDigitsHasNo(high, bad);
      assert s == front + [s[|s| - 1]];
      assert front == high || front == high + "_";
    }
  }

  lemma {:induction false} StripLeftKeeps(s: string, c: char)
    requires c in s && !IsSpace(c)
    ensures c in StripLeft(s)
  {
    if IsSpace(s[0]) {
      StripLeftKeeps(s[1..], c);
    }
  }

  lemma {:induction false} StripRightKeeps(s: string, c: char)
    requires c in s && !IsSpace(c)
    ensures c in StripRight(s)
  {
    if IsSpace(s[|s| - 1]) {
      StripRightKeeps(s[..|s| - 1], c);
    }
  }

  /** A text that reads as a number holds no separator character. */
  lemma ReadIntHasNo(s: string, bad: char)
    requires ReadInt(s).Some?
    requires !IsDigit(bad) && bad != '_' && bad != '+' && bad != '-' && !IsSpace(bad)
    ensures bad !in s
  {
    if bad in s {
      StripLeftKeeps(s, bad);
      StripRightKeeps(StripLeft(s), bad);
      var t := StripRight(StripLeft(s));
      if t[0] == '-' || t[0] == '+' {
        assert t == [t[0]] + t[1..];
        ReadDigitsHasNo(t[1..], bad);
      } else {
        ReadDigitsHasNo(t, bad);
      }
    }
  }

  /** Folding to one case leaves no letter of the other, and folding back gives what folding directly gives. */
  lemma CaseFolds(s: string)
    ensures Lower(Upper(s)) == Lower(s) && Upper(Lower(s)) == Upper(s)
    ensures forall c | c in Upper(s) :: !('a' <= c <= 'z')
    ensures forall c | c in Lower(s) :: !('A' <= c <= 'Z')
  {
  }
}
