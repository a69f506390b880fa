/** Unpadded base64url (section 5 of RFC 4648) as Node's `Buffer` writes and reads it: the reader
    takes both alphabets and skips characters of neither. */
module Base64Url {
  import opened Wrappers

  newtype byte = n: int | 0 <= n < 256

  function Char(n: int): char
    requires 0 <= n < 64
  {
    if n < 26 then ('A' as int + n) as char
    else if n < 52 then ('a' as int + (n - 26)) as char
    else if n < 62 then ('0' as int + (n - 52)) as char
    else if n == 62 then '-'
    else '_'
  }

  function Value(c: char): (r: Option<int>)
    ensures r.Some? ==> 0 <= r.value < 64
  {
    if 'A' <= c <= 'Z' then Some(c as int - 'A' as int)
    else if 'a' <= c <= 'z' then Some(c as int - 'a' as int + 26)
    else if '0' <= c <= '9' then Some(c as int - '0' as int + 52)
    else if c == '-' || c == '+' then Some(62)
    else if c == '_' || c == '/' then Some(63)
    else None
  }

  type Sextets = s: seq<int> | forall i :: 0 <= i < |s| ==> 0 <= s[i] < 64

  function Pack(b: seq<byte>): Sextets {
    if b == [] then []
    else
      var x := b[0] as int;
      if |b| == 1 then [x / 4, x % 4 * 16]
      else
        var y := b[1] as int;
        if |b| == 2 then [x / 4, x % 4 * 16 + y / 16, y % 16 * 4]
        else
          var z := b[2] as int;
          [x / 4, x % 4 * 16 + y / 16, y % 16 * 4 + z / 64, z % 64] + Pack(b[3..])
  }

  function Unpack(s: Sextets): seq<byte> {
    if |s| < 2 then []
    else
      var x := (s[0] * 4 + s[1] / 16) as byte;
      if |s| == 2 then [x]
      else
        var y := (s[1] % 16 * 16 + s[2] / 4) as byte;
        if |s| == 3 then [x, y]
        else
          var z := (s[2] % 4 * 64 + s[3]) as byte;
          [x, y, z] + Unpack(s[4..])
  }

  function Print(s: Sextets): string {
    if s == [] then "" else [Char(s[0])] + Print(s[1..])
  }

  function Scan(t: string): Sextets {
    if t == "" then []
    else match Value(t[0])
      case Some(n) => [n] + Scan(t[1..])
      case None => Scan(t[1..])
  }

  function Encode(b: seq<byte>): string {
    Print(Pack(b))
  }

  function Decode(t: string): seq<byte> {
    Unpack(Scan(t))
  }

  lemma ValueChar(n: int)
    requires 0 <= n < 64
    ensures Value(Char(n)) == Some(n)
  {}

  lemma {:induction false} ScanPrint(s: Sextets)
    ensures Scan(Print(s)) == s
  {
    if s != [] {
      ValueChar(s[0]);
      ScanPrint(s[1..]);
      assert Print(s)[1..] == Print(s[1..]);
    }
  }

  lemma {:induction false} UnpackPack(b: seq<byte>)
    ensures Unpack(Pack(b)) == b
  {
    if |b| >= 3 {
      UnpackPack(b[3..]);
      assert Pack(b)[4..] == Pack(b[3..]);
      assert b == [b[0], b[1], b[2]] + b[3..];
    } else if |b| == 2 {
      assert b == [b[0], b[1]];
    } else if |b| == 1 {
      assert b == [b[0]];
    }
  }

  /** What is encoded is decoded, for all bytes. */
  lemma RoundTrip(b: seq<byte>)
    ensures Decode(Encode(b)) == b
  {
    ScanPrint(Pack(b));
    UnpackPack(b);
  }

  lemma EncodeNonEmpty(b: seq<byte>)
    requires b != []
    ensures Encode(b) != ""
  {}
}
