/** JSON strings as Python's `json` module writes and reads them (section 7 of RFC 8259):
    `dumps` escapes everything outside printable ASCII, `loads` reads one string back. */
module Json {
  import opened Wrappers

  const HEX: string := "0123456789abcdef"

  function HexDigit(n: int): char
    requires 0 <= n < 16
  {
    HEX[n]
  }

  function Hex4(n: int): string
    requires 0 <= n < 0x1_0000
  {
    [HexDigit(n / 0x1000), HexDigit(n / 0x100 % 0x10), HexDigit(n / 0x10 % 0x10), HexDigit(n % 0x10)]
  }

  /** The six-character escape of a code unit. */
  function Unit(n: int): string
    requires 0 <= n < 0x1_0000
  {
    ['\\', 'u'] + Hex4(n)
  }

  function EscapeChar(c: char): string {
    var n := c as int;
    if c == '"' then ['\\', '"']
    else if c == '\\' then ['\\', '\\']
    else if c == '\n' then ['\\', 'n']
    else if c == '\r' then ['\\', 'r']
    else if c == '\t' then ['\\', 't']
    else if n == 8 then ['\\', 'b']
    else if n == 12 then ['\\', 'f']
    else if 0x20 <= n < 0x7f then [c]
    else if n < 0x1_0000 then Unit(n)
    else Unit(High(n)) + Unit(Low(n))
  }

  /** The surrogate pair of a character beyond the basic plane. */
  function High(n: int): int {
    0xd800 + (n - 0x1_0000) / 0x400
  }

  function Low(n: int): int {
    0xdc00 + (n - 0x1_0000) % 0x400
  }

  function Escape(s: string): string {
    if s == "" then "" else EscapeChar(s[0]) + Escape(s[1..])
  }

  function Dumps(s: string): string {
    "\"" + Escape(s) + "\""
  }

  // ------------------------------------------------------------ reading

  function HexValue(c: char): Option<int> {
    if '0' <= c <= '9' then Some(c as int - '0' as int)
    else if 'a' <= c <= 'f' then Some(c as int - 'a' as int + 10)
    else if 'A' <= c <= 'F' then Some(c as int - 'A' as int + 10)
    else None
  }

  /** The value of four hex digits at the head of the text. */
  function Hex4Value(t: string): (r: Option<int>)
    ensures r.Some? ==> |t| >= 4 && 0 <= r.value < 0x1_0000
  {
    if |t| < 4 then None
    else match (HexValue(t[0]), HexValue(t[1]), HexValue(t[2]), HexValue(t[3]))
      case (Some(a), Some(b), Some(c), Some(d)) => Some(a * 0x1000 + b * 0x100 + c * 0x10 + d)
      case _ => None
  }

  /** The second half of a surrogate pair. */
  function LowSurrogate(t: string): Option<int> {
    if |t| >= 6 && t[0] == '\\' && t[1] == 'u' then
      match Hex4Value(t[2..])
      case Some(lo) => if 0xdc00 <= lo < 0xe000 then Some(lo) else None
      case None => None
    else None
  }

  function Joined(hi: int, lo: int): char
    requires 0xd800 <= hi < 0xdc00 <= lo < 0xe000
  {
    (0x1_0000 + (hi - 0xd800) * 0x400 + (lo - 0xdc00)) as char
  }

  /** Reads one character after `\\u`, and counts the text from the `u` on. A lone surrogate is
      refused, since a Dafny character cannot be one. */
  function ReadUnicode(t: string): (r: Option<(char, nat)>)
    ensures r.Some? ==> 1 <= r.value.1 <= |t| + 1
  {
    match Hex4Value(t)
    case None => None
    case Some(hi) =>
      if !(0xd800 <= hi < 0xe000) then Some((hi as char, 5))
      else if hi >= 0xdc00 then None
      else match LowSurrogate(t[4..])
        case Some(lo) => Some((Joined(hi, lo), 11))
        case None => None
  }

  /** Reads one character after a backslash: the character and how much text it took. */
  function ReadEscape(t: string): (r: Option<(char, nat)>)
    ensures r.Some? ==> 1 <= r.value.1 <= |t|
  {
    if t == "" then None
    else match t[0]
      case '"' => Some(('"', 1))
      case '\\' => Some(('\\', 1))
      case '/' => Some(('/', 1))
      case 'b' => Some((8 as char, 1))
      case 'f' => Some((12 as char, 1))
      case 'n' => Some(('\n', 1))
      case 'r' => Some(('\r', 1))
      case 't' => Some(('\t', 1))
      case 'u' => ReadUnicode(t[1..])
      case _ => None
  }

  /** Reads up to the closing quote: the string and what follows it. */
  function Scan(t: string): (r: Option<(string, string)>)
    decreases |t|
  {
    if t == "" then None
    else if t[0] == '"' then Some(("", t[1..]))
    else if t[0] as int < 0x20 then None
    else if t[0] == '\\' then
      match ReadEscape(t[1..])
      case None => None
      case Some((c, n)) => Prepend(c, Scan(t[1 + n..]))
    else Prepend(t[0], Scan(t[1..]))
  }

  function Prepend(c: char, r: Option<(string, string)>): Option<(string, string)> {
    if r.Some? then Some(([c] + r.value.0, r.value.1)) else None
  }

  /** `loads` of a text that starts with a quote and has no white space at its ends. */
  function Loads(t: string): Option<string> {
    if t != "" && t[0] == '"' then
      match Scan(t[1..])
      case Some((s, rest)) => if rest == "" then Some(s) else None
      case None => None
    else None
  }

  // ------------------------------------------------------------ round trip

  lemma HexRoundTrip(n: int)
    requires 0 <= n < 16
    ensures HexValue(HexDigit(n)) == Some(n)
  {}

  lemma Digits(n: int)
    requires 0 <= n < 0x1_0000
    ensures n / 0x1000 * 0x1000 + n / 0x100 % 0x10 * 0x100 + n / 0x10 % 0x10 * 0x10 + n % 0x10 == n
  {
    assert n / 0x100 / 0x10 == n / 0x1000 && n / 0x10 / 0x10 == n / 0x100;
  }

  lemma Hex4RoundTrip(n: int, rest: string)
    requires 0 <= n < 0x1_0000
    ensures Hex4Value(Hex4(n) + rest) == Some(n)
  {
    var t := Hex4(n) + rest;
    assert t[0] == HexDigit(n / 0x1000) && t[1] == HexDigit(n / 0x100 % 0x10);
    assert t[2] == HexDigit(n / 0x10 % 0x10) && t[3] == HexDigit(n % 0x10);
    Digits(n);
    HexRoundTrip(n / 0x1000);
    HexRoundTrip(n / 0x100 % 0x10);
    HexRoundTrip(n / 0x10 % 0x10);
    HexRoundTrip(n % 0x10);
  }

  lemma ReadUnit(n: int, rest: string)
    requires 0 <= n < 0x1_0000 && !(0xd800 <= n < 0xe000)
    ensures ReadEscape((Unit(n) + rest)[1..]) == Some((n as char, 5))
  {
    var t := (Unit(n) + rest)[1..];
    Hex4RoundTrip(n, rest);
    assert t[0] == 'u' && t[1..] == Hex4(n) + rest;
  }

  lemma PairValue(n: int)
    requires 0x1_0000 <= n < 0x11_0000
    ensures 0xd800 <= High(n) < 0xdc00 <= Low(n) < 0xe000 && Joined(High(n), Low(n)) == n as char
  {}

  lemma ReadLow(lo: int, rest: string)
    requires 0xdc00 <= lo < 0xe000
    ensures LowSurrogate(Unit(lo) + rest) == Some(lo)
  {
    Hex4RoundTrip(lo, rest);
    assert (Unit(lo) + rest)[2..] == Hex4(lo) + rest;
  }

  lemma ReadPair(hi: int, lo: int, rest: string)
    requires 0xd800 <= hi < 0xdc00 <= lo < 0xe000
    ensures ReadEscape((Unit(hi) + (Unit(lo) + rest))[1..]) == Some((Joined(hi, lo), 11))
  {
    var t := (Unit(hi) + (Unit(lo) + rest))[1..];
    Hex4RoundTrip(hi, Unit(lo) + rest);
    ReadLow(lo, rest);
    assert t[0] == 'u' && t[1..] == Hex4(hi) + (Unit(lo) + rest);
    assert t[1..][4..] == Unit(lo) + rest;
  }

  lemma ScanShort(c: char, rest: string)
    requires c as int < 0x1_0000
    ensures Scan(EscapeChar(c) + rest) == Prepend(c, Scan(rest))
  {
    var n, t := c as int, EscapeChar(c) + rest;
    if 0x20 <= n < 0x7f && c != '"' && c != '\\' {
      assert t[1..] == rest;
    } else if c == '"' || c == '\\' || c == '\n' || c == '\r' || c == '\t' || n == 8 || n == 12 {
      assert t[2..] == rest;
      assert ReadEscape(t[1..]) == Some((c, 1));
    } else {
      ReadUnit(n, rest);
      assert t[6..] == rest;
    }
  }

  lemma ScanEscaped(t: string, c: char, n: nat, rest: string)
    requires t != "" && t[0] == '\\' && ReadEscape(t[1..]) == Some((c, n)) && t[1 + n..] == rest
    ensures Scan(t) == Prepend(c, Scan(rest))
  {}

  lemma ScanLong(c: char, rest: string)
    requires c as int >= 0x1_0000
    ensures Scan(EscapeChar(c) + rest) == Prepend(c, Scan(rest))
  {
    var n := c as int;
    PairValue(n);
    var a, b := Unit(High(n)), Unit(Low(n));
    var t := a + (b + rest);
    assert EscapeChar(c) + rest == t;
    ReadPair(High(n), Low(n), rest);
    assert |a| == 6 && |b| == 6 && a[0] == '\\';
    ScanEscaped(t, c, 11, rest);
  }

  lemma ScanChar(c: char, rest: string)
    ensures Scan(EscapeChar(c) + rest) == Prepend(c, Scan(rest))
  {
    if c as int < 0x1_0000 { ScanShort(c, rest); } else { ScanLong(c, rest); }
  }

  lemma ScanOneMore(c: char, s: string, b: string, rest: string)
    requires Scan(b) == Some((s, rest))
    ensures Scan(EscapeChar(c) + b) == Some(([c] + s, rest))
  {
    ScanChar(c, b);
  }

  lemma EscapeQuoted(s: string, rest: string)
    requires s != ""
    ensures Escape(s) + ("\"" + rest) == EscapeChar(s[0]) + (Escape(s[1..]) + ("\"" + rest))
  {}

  lemma {:induction false} ScanEscape(s: string, rest: string)
    ensures Scan(Escape(s) + ("\"" + rest)) == Some((s, rest))
    decreases |s|
  {
    if s == "" {
      assert "" + ("\"" + rest) == "\"" + rest && ("\"" + rest)[1..] == rest;
    } else {
      ScanEscape(s[1..], rest);
      ScanOneMore(s[0], s[1..], Escape(s[1..]) + ("\"" + rest), rest);
      EscapeQuoted(s, rest);
      assert [s[0]] + s[1..] == s;
    }
  }

  /** Whatever is written is read back. */
  lemma LoadsDumps(s: string)
    ensures Loads(Dumps(s)) == Some(s)
  {
    ScanEscape(s, "");
    assert Dumps(s)[1..] == Escape(s) + ("\"" + "");
  }

  predicate Printable(s: string) {
    forall i :: 0 <= i < |s| ==> 0x20 <= s[i] as int < 0x7f
  }

  lemma UnitPrintable(n: int)
    requires 0 <= n < 0x1_0000
    ensures Printable(Unit(n))
  {
    forall k | 0 <= k < 16 ensures 0x20 <= HexDigit(k) as int < 0x7f {}
  }

  lemma EscapeCharPrintable(c: char)
    ensures Printable(EscapeChar(c))
  {
    var n := c as int;
    if n >= 0x1_0000 {
      PairValue(n);
      UnitPrintable(High(n));
      UnitPrintable(Low(n));
      var a, b := Unit(High(n)), Unit(Low(n));
      assert EscapeChar(c) == a + b;
    } else {
      UnitPrintable(n);
    }
  }

  lemma {:induction false} EscapePrintable(s: string)
    ensures Printable(Escape(s))
  {
    if s != "" {
      EscapePrintable(s[1..]);
      EscapeCharPrintable(s[0]);
    }
  }

  /** Text that can stand between quotes as it is. */
  predicate Verbatim(s: string) {
    forall i :: 0 <= i < |s| ==> s[i] as int >= 0x20 && s[i] != '"' && s[i] != '\\'
  }

  /** Text that stands for itself both ways: escaping leaves it alone. */
  predicate Plain(s: string) {
    Printable(s) && Verbatim(s)
  }

  lemma {:induction false} ScanVerbatim(s: string)
    requires Verbatim(s)
    ensures Scan(s + "\"") == Some((s, ""))
    decreases |s|
  {
    if s == "" {
      assert s + "\"" == "\"";
    } else {
      ScanVerbatim(s[1..]);
      assert (s + "\"")[1..] == s[1..] + "\"";
      assert [s[0]] + s[1..] == s;
    }
  }
}
