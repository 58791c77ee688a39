/**
 `json.dumps` with sorted keys and compact separators on objects of texts, booleans and null:
 the printer, with Python's ASCII escaping, and a reader that undoes it (section 7 of RFC 8259).
 */
module Json {
  import opened Wrappers

  /** The values that occur in audit texts. */
  datatype Value = Null | Bool(b: bool) | Str(s: string)

  type Field = (string, Value)

  function OrNull(o: Option<string>): Value { if o.Some? then Str(o.value) else Null }

  // ----- printing -----

  function HexChar(d: nat): char
    requires d < 16
  {
    if d < 10 then '0' + d as char else 'a' + (d - 10) as char
  }

  function Hex4(n: nat): string
    requires n < 0x10000
  {
    [HexChar(n / 4096), HexChar(n / 256 % 16), HexChar(n / 16 % 16), HexChar(n % 16)]
  }

  function UnicodeEscape(n: nat): string
    requires n < 0x10000
  {
    "\\u" + Hex4(n)
  }

  /** The letter of a two-character escape. */
  function ShortEscape(c: char): Option<char> {
    if c == '"' then Some('"')
    else if c == '\\' then Some('\\')
    else if c == '\n' then Some('n')
    else if c == '\r' then Some('r')
    else if c == '\t' then Some('t')
    else if c as int == 8 then Some('b')
    else if c as int == 12 then Some('f')
    else None
  }

  function SurrogatePair(n: nat): string
    requires n < 0x100000
  {
    UnicodeEscape(0xd800 + n / 0x400) + UnicodeEscape(0xdc00 + n % 0x400)
  }

  /** Printable ASCII stands for itself; all else is escaped, beyond the basic plane as a surrogate pair. */
  function EscapeChar(c: char): string {
    if ShortEscape(c).Some? then ['\\', ShortEscape(c).value]
    else if ' ' <= c <= '~' then [c]
    else if c as int < 0x10000 then UnicodeEscape(c as int)
    else SurrogatePair(c as int - 0x10000)
  }

  function Escape(s: string): string {
    if s == "" then "" else EscapeChar(s[0]) + Escape(s[1..])
  }

  function PrintValue(v: Value): string {
    match v
    case Null => "null"
    case Bool(b) => if b then "true" else "false"
    case Str(s) => "\"" + (Escape(s) + "\"")
  }

  function PrintMember(f: Field): string {
    "\"" + (Escape(f.0) + ("\"" + (":" + PrintValue(f.1))))
  }

  function PrintMembers(fs: seq<Field>): string {
    if fs == [] then ""
    else if |fs| == 1 then PrintMember(fs[0])
    else PrintMember(fs[0]) + ("," + PrintMembers(fs[1..]))
  }

  function PrintObject(fs: seq<Field>): string {
    "{" + (PrintMembers(fs) + "}")
  }

  // ----- reading -----

  function HexValue(c: char): Option<nat> {
    if '0' <= c <= '9' then Some((c - '0') as int)
    else if 'a' <= c <= 'f' then Some((c - 'a') as int + 10)
    else None
  }

  /** The number written by `\uXXXX` at the start of the text. */
  function ReadUnicodeEscape(s: string): (r: Option<nat>)
    ensures r.Some? ==> |s| >= 6 && r.value < 0x10000
  {
    if |s| < 6 || s[0] != '\\' || s[1] != 'u' then None
    else
      var (a, b, c, d) := (HexValue(s[2]), HexValue(s[3]), HexValue(s[4]), HexValue(s[5]));
      if a.None? || b.None? || c.None? || d.None? then None
      else Some(4096 * a.value + 256 * b.value + 16 * c.value + d.value)
  }

  /** One possibly escaped character and what follows it. */
  function ReadChar(s: string): (r: Option<(char, string)>)
    ensures r.Some? ==> |r.value.1| < |s|
  {
    if s == "" then None
    else if s[0] != '\\' then Some((s[0], s[1..]))
    else if |s| < 2 then None
    else match s[1]
      case '"' => Some(('"', s[2..]))
      case '\\' => Some(('\\', s[2..]))
      case 'n' => Some(('\n', s[2..]))
      case 'r' => Some(('\r', s[2..]))
      case 't' => Some(('\t', s[2..]))
      case 'b' => Some((8 as char, s[2..]))
      case 'f' => Some((12 as char, s[2..]))
      case _ =>
        var n :- ReadUnicodeEscape(s);
        if n < 0xd800 || 0xe000 <= n then Some((n as char, s[6..]))
        else if 0xdc00 <= n then None
        else
          var m :- ReadUnicodeEscape(s[6..]);
          if m < 0xdc00 || 0xe000 <= m then None
          else Some(((0x10000 + 0x400 * (n - 0xd800) + (m - 0xdc00)) as char, s[12..]))
  }

  /** The text up to the closing quote and what follows that quote. */
  function ReadText(s: string): (r: Option<(string, string)>)
    ensures r.Some? ==> |r.value.1| < |s|
    decreases |s|
  {
    if s == "" then None
    else if s[0] == '"' then Some(("", s[1..]))
    else
      var (c, rest) :- ReadChar(s);
      var (t, after) :- ReadText(rest);
      Some(([c] + t, after))
  }

  function ReadValue(s: string): (r: Option<(Value, string)>)
    ensures r.Some? ==> |r.value.1| < |s|
  {
    if |s| >= 4 && s[..4] == "null" then Some((Null, s[4..]))
    else if |s| >= 4 && s[..4] == "true" then Some((Bool(true), s[4..]))
    else if |s| >= 5 && s[..5] == "false" then Some((Bool(false), s[5..]))
    else if s != "" && s[0] == '"' then
      var (t, rest) :- ReadText(s[1..]);
      Some((Str(t), rest))
    else None
  }

  function ReadMember(s: string): (r: Option<(Field, string)>)
    ensures r.Some? ==> |r.value.1| < |s|
  {
    if s == "" || s[0] != '"' then None
    else
      var (key, rest) :- ReadText(s[1..]);
      if rest == "" || rest[0] != ':' then None
      else
        var (v, after) :- ReadValue(rest[1..]);
        Some(((key, v), after))
  }

  function ReadMembers(s: string): Option<seq<Field>>
    decreases |s|
  {
    var (f, rest) :- ReadMember(s);
    if rest == "}" then Some([f])
    else if rest != "" && rest[0] == ',' then
      var fs :- ReadMembers(rest[1..]);
      Some([f] + fs)
    else None
  }

  function ReadObject(s: string): Option<seq<Field>> {
    if s == "{}" then Some([])
    else if s != "" && s[0] == '{' then ReadMembers(s[1..])
    else None
  }

  // ----- what is printed -----

  /** How long the escape of a character is: itself, one of seven short escapes, a `\u` escape, or a pair of them. */
  lemma EscapeLength(c: char)
    ensures c in "\"\\\n\r\t" || c as int == 8 || c as int == 12 ==> |EscapeChar(c)| == 2
    ensures c !in "\"\\" && ' ' <= c <= '~' ==> |EscapeChar(c)| == 1
    ensures !(' ' <= c <= '~') && c !in "\n\r\t" && c as int != 8 && c as int != 12 ==>
              |EscapeChar(c)| == if c as int < 0x10000 then 6 else 12
  {
  }

  lemma UnicodeEscapeIsAscii(n: nat)
    requires n < 0x10000
    ensures forall d | d in UnicodeEscape(n) :: ' ' <= d <= '~'
  {
    assert forall i | 0 <= i < 4 :: '0' <= Hex4(n)[i] <= 'f';
  }

  /** Whatever the characters, printable ASCII is printed. */
  lemma EscapeIsAscii(c: char)
    ensures forall d | d in EscapeChar(c) :: ' ' <= d <= '~'
  {
    if c as int < 0x10000 {
      UnicodeEscapeIsAscii(c as int);
    } else {
      UnicodeEscapeIsAscii(0xd800 + (c as int - 0x10000) / 0x400);
      UnicodeEscapeIsAscii(0xdc00 + (c as int - 0x10000) % 0x400);
    }
  }

  lemma {:induction false} EscapedIsAscii(s: string)
    ensures forall d | d in Escape(s) :: ' ' <= d <= '~'
  {
    if s == "" {
    } else {
      EscapeIsAscii(s[0]);
      EscapedIsAscii(s[1..]);
    }
  }

  // ----- reading undoes printing -----

  lemma HexValueOfHexChar(d: nat)
    requires d < 16
    ensures HexValue(HexChar(d)) == Some(d)
  {
  }

  lemma HexDigitsAddUp(n: nat)
    requires n < 0x10000
    ensures 4096 * (n / 4096) + 256 * (n / 256 % 16) + 16 * (n / 16 % 16) + n % 16 == n
  {
    assert n / 256 == n / 16 / 16 && n / 4096 == n / 256 / 16;
  }

  lemma ReadsUnicodeEscape(n: nat, rest: string)
    requires n < 0x10000
    ensures ReadUnicodeEscape(UnicodeEscape(n) + rest) == Some(n)
    ensures (UnicodeEscape(n) + rest)[6..] == rest
  {
    var (a, b, c, d) := (n / 4096, n / 256 % 16, n / 16 % 16, n % 16);
    HexDigitsAddUp(n);
    var s := UnicodeEscape(n) + rest;
    assert s == ['\\', 'u', HexChar(a), HexChar(b), HexChar(c), HexChar(d)] + rest;
    HexValueOfHexChar(a);
    HexValueOfHexChar(b);
    HexValueOfHexChar(c);
    HexValueOfHexChar(d);
  }

  lemma ReadsBasicEscape(n: nat, rest: string)
    requires n < 0xd800 || 0xe000 <= n < 0x10000
    ensures ReadChar(UnicodeEscape(n) + rest) == Some((n as char, rest))
  {
    ReadsUnicodeEscape(n, rest);
    assert (UnicodeEscape(n) + rest)[..2] == "\\u";
  }

  lemma ReadsPair(high: nat, low: nat, rest: string)
    requires 0xd800 <= high < 0xdc00 <= low < 0xe000
    ensures ReadChar(UnicodeEscape(high) + UnicodeEscape(low) + rest)
         == Some(((0x10000 + 0x400 * (high - 0xd800) + (low - 0xdc00)) as char, rest))
  {
    var after := UnicodeEscape(low) + rest;
    var s := UnicodeEscape(high) + after;
    assert UnicodeEscape(high) + UnicodeEscape(low) + rest == s;
    ReadsUnicodeEscape(high, after);
    ReadsUnicodeEscape(low, rest);
    assert s[..2] == "\\u";
    assert s[12..] == s[6..][6..];
  }

  lemma ReadsSurrogatePair(n: nat, rest: string)
    requires n < 0x100000
    ensures ReadChar(SurrogatePair(n) + rest) == Some(((0x10000 + n) as char, rest))
  {
    ReadsPair(0xd800 + n / 0x400, 0xdc00 + n % 0x400, rest);
  }

  lemma ReadsShortEscape(c: char, rest: string)
    requires ShortEscape(c).Some?
    ensures ReadChar(['\\', ShortEscape(c).value] + rest) == Some((c, rest))
  {
  }

  lemma ReadsPlainChar(c: char, rest: string)
    requires c != '\\'
    ensures ReadChar([c] + rest) == Some((c, rest))
  {
  }

  lemma ReadsEscapedChar(c: char, rest: string)
    ensures ReadChar(EscapeChar(c) + rest) == Some((c, rest))
    ensures EscapeChar(c)[0] != '"'
  {
    if ShortEscape(c).Some? {
      ReadsShortEscape(c, rest);
    } else if ' ' <= c <= '~' {
      ReadsPlainChar(c, rest);
    } else if c as int < 0x10000 {
      ReadsBasicEscape(c as int, rest);
    } else {
      ReadsSurrogatePair(c as int - 0x10000, rest);
    }
  }

  lemma {:induction false} ReadsEscapedText(s: string, rest: string)
    ensures ReadText(Escape(s) + ("\"" + rest)) == Some((s, rest))
  {
    if s == "" {
      assert Escape(s) + ("\"" + rest) == "\"" + rest;
    } else {
      var tail := Escape(s[1..]) + ("\"" + rest);
      assert Escape(s) + ("\"" + rest) == EscapeChar(s[0]) + tail;
      ReadsEscapedChar(s[0], tail);
      ReadsEscapedText(s[1..], rest);
      assert [s[0]] + s[1..] == s;
    }
  }

  lemma ReadsPrintedStr(text: string, rest: string)
    ensures ReadValue(PrintValue(Str(text)) + rest) == Some((Str(text), rest))
  {
    var after := Escape(text) + ("\"" + rest);
    var all := ['"'] + after;
    assert PrintValue(Str(text)) + rest == all;
    assert all[1..] == after;
    assert |all| >= 4 ==> all[..4][0] == '"';
    assert |all| >= 5 ==> all[..5][0] == '"';
    assert "null"[0] == 'n' && "true"[0] == 't' && "false"[0] == 'f';
    ReadsEscapedText(text, rest);
  }

  lemma ReadsPrintedValue(v: Value, rest: string)
    ensures ReadValue(PrintValue(v) + rest) == Some((v, rest))
  {
    match v
    case Null =>
      var text := "null" + rest;
      assert text[..4] == "null" && text[4..] == rest;
    case Bool(true) =>
      var text := "true" + rest;
      assert text[..4][0] != "null"[0];
      assert text[..4] == "true" && text[4..] == rest;
    case Bool(false) =>
      var text := "false" + rest;
      assert text[..4][0] != "null"[0] && text[..4][0] != "true"[0];
      assert text[..5] == "false" && text[5..] == rest;
    case Str(s) =>
      ReadsPrintedStr(s, rest);
  }

  lemma ReadsPrintedMember(f: Field, rest: string)
    ensures ReadMember(PrintMember(f) + rest) == Some((f, rest))
  {
    var after := ":" + (PrintValue(f.1) + rest);
    assert (PrintMember(f) + rest)[1..] == Escape(f.0) + ("\"" + after);
    ReadsEscapedText(f.0, after);
    assert after[1..] == PrintValue(f.1) + rest;
    ReadsPrintedValue(f.1, rest);
  }

  lemma MembersRead(s: string, f: Field, more: string, fs: seq<Field>)
    requires ReadMember(s) == Some((f, "," + more)) && ReadMembers(more) == Some(fs)
    ensures ReadMembers(s) == Some([f] + fs)
  {
    assert ("," + more)[1..] == more;
  }

  lemma {:induction false} ReadsPrintedMembers(fs: seq<Field>)
    requires fs != []
    ensures ReadMembers(PrintMembers(fs) + "}") == Some(fs)
  {
    if |fs| == 1 {
      ReadsPrintedMember(fs[0], "}");
      assert [fs[0]] == fs;
    } else {
      var more := PrintMembers(fs[1..]) + "}";
      assert PrintMembers(fs) + "}" == PrintMember(fs[0]) + ("," + more);
      ReadsPrintedMember(fs[0], "," + more);
      ReadsPrintedMembers(fs[1..]);
      MembersRead(PrintMembers(fs) + "}", fs[0], more, fs[1..]);
      assert [fs[0]] + fs[1..] == fs;
    }
  }

  /** Every printed object reads back, for all keys and all texts. */
  lemma ReadUndoesPrint(fs: seq<Field>)
    ensures ReadObject(PrintObject(fs)) == Some(fs)
  {
    if fs == [] {
      assert PrintObject(fs) == "{}";
    } else {
      ReadsPrintedMembers(fs);
      var text := PrintObject(fs);
      assert text[1..] == PrintMembers(fs) + "}";
      assert text[1] == '"' by { assert PrintMembers(fs)[0] == '"'; }
      assert "{}"[1] != '"';
    }
  }
}
