/** The text form of a history cursor: it parses back to what it was made from, and its
    lowercase hashes compare as the blobs they spell. */
module HistoryCursor {
  import opened Wrappers
  import opened Domain
  import opened Lexical

  newtype byte = b: int | 0 <= b < 256

  const HEX := ['0', '1', '2', '3', '4', '5', '6', '7', '8', '9', 'a', 'b', 'c', 'd', 'e', 'f']

  function HexDigit(d: nat): char
    requires d < 16
  {
    HEX[d]
  }

  /** `lower(hex(…))` */
  function Encode(bytes: seq<byte>): string {
    if bytes == [] then "" else [HexDigit(bytes[0] as nat / 16), HexDigit(bytes[0] as nat % 16)] + Encode(bytes[1..])
  }

  /** A hexadecimal digit of either case. */
  function DigitValue(c: char): Option<nat> {
    if '0' <= c <= '9' then Some(c as int - '0' as int)
    else if 'a' <= c <= 'f' then Some(c as int - 'a' as int + 10)
    else if 'A' <= c <= 'F' then Some(c as int - 'A' as int + 10)
    else None
  }

  function Decode(s: string): Option<seq<byte>> {
    if s == [] then Some([])
    else if |s| == 1 then None
    else
      match (DigitValue(s[0]), DigitValue(s[1]), Decode(s[2..]))
      case (Some(high), Some(low), Some(rest)) =>
        if high < 16 && low < 16 then Some([(16 * high + low) as byte] + rest) else None
      case _ => None
  }

  function Lower(c: char): char { if 'A' <= c <= 'Z' then (c as int - 'A' as int + 'a' as int) as char else c }

  function ToLower(s: string): string { if s == [] then [] else [Lower(s[0])] + ToLower(s[1..]) }

  /** At least one digit, and nothing else. */
  function ParseDecimal(s: string): Option<nat> {
    if s == [] then None
    else if !('0' <= s[|s| - 1] <= '9') then None
    else
      var last := s[|s| - 1] as int - '0' as int;
      if |s| == 1 then Some(last)
      else match ParseDecimal(s[..|s| - 1]) case Some(n) => Some(10 * n + last) case None => None
  }

  /** `parse::<i64>()`: digits after an optional sign. */
  function ParseTime(s: string): Option<int> {
    var signed := s != [] && (s[0] == '-' || s[0] == '+');
    match ParseDecimal(if signed then s[1..] else s)
    case None => None
    case Some(n) =>
      var time: int := if signed && s[0] == '-' then 0 - n else n;
      if -I64_MAX - 1 <= time <= I64_MAX then Some(time) else None
  }

  /** `split_once(':')` */
  function SplitColon(s: string): Option<(string, string)> {
    if s == [] then None
    else if s[0] == ':' then Some(("", s[1..]))
    else match SplitColon(s[1..]) case Some((a, b)) => Some(([s[0]] + a, b)) case None => None
  }

  function Format(time: nat, hash: seq<byte>): string { Decimal(time) + ":" + Encode(hash) }

  function Parse(cursor: string): Option<(int, string)> {
    match SplitColon(cursor)
    case None => None
    case Some((time, hash)) =>
      match (ParseTime(time), Decode(hash))
      case (Some(t), Some(bytes)) =>
        if |bytes| == 32 && |hash| == 64 then Some((t, ToLower(hash))) else None
      case _ => None
  }

  lemma {:induction false} DecimalParses(n: nat)
    ensures ParseDecimal(Decimal(n)) == Some(n)
    ensures ':' !in Decimal(n) && '0' <= Decimal(n)[0] <= '9'
  {
    if n >= 10 {
      DecimalParses(n / 10);
      assert Decimal(n)[..|Decimal(n)| - 1] == Decimal(n / 10);
    }
  }

  lemma {:induction false} EncodingDecodes(bytes: seq<byte>)
    ensures Decode(Encode(bytes)) == Some(bytes) && |Encode(bytes)| == 2 * |bytes|
    ensures ToLower(Encode(bytes)) == Encode(bytes)
  {
    if bytes != [] {
      var b, rest := bytes[0] as nat, bytes[1..];
      EncodingDecodes(rest);
      var s := Encode(bytes);
      DigitReads(b / 16);
      DigitReads(b % 16);
      assert s[2..] == Encode(rest);
      assert s[1..] == [s[1]] + s[2..] && s[1..][1..] == s[2..];
      assert 16 * (b / 16) + b % 16 == b;
      assert Decode(s) == Some([bytes[0]] + rest);
      assert [bytes[0]] + rest == bytes;
    }
  }

  lemma DigitReads(d: nat)
    requires d < 16
    ensures DigitValue(HexDigit(d)) == Some(d) && Lower(HexDigit(d)) == HexDigit(d)
  {
  }

  lemma {:induction false} SplitsAtColon(a: string, b: string)
    requires ':' !in a
    ensures SplitColon(a + ":" + b) == Some((a, b))
  {
    if a != [] {
      assert (a + ":" + b)[1..] == a[1..] + ":" + b;
      SplitsAtColon(a[1..], b);
      assert [a[0]] + a[1..] == a;
    } else {
      assert (a + ":" + b)[1..] == b;
    }
  }

  /** A page's cursor reads back as the time and hash of its last revision. */
  lemma CursorRoundTrip(time: nat, hash: seq<byte>)
    requires time <= I64_MAX && |hash| == 32
    ensures Parse(Format(time, hash)) == Some((time, Encode(hash)))
  {
    DecimalParses(time);
    EncodingDecodes(hash);
    SplitsAtColon(Decimal(time), Encode(hash));
  }

  // ------------------------------------------------------------------- order

  predicate ByteLess(x: byte, y: byte) { x < y }

  predicate BytesBefore(a: seq<byte>, b: seq<byte>) { Before(a, b, ByteLess) }

  lemma DigitOrder(d: nat, e: nat)
    requires d < 16 && e < 16
    ensures HexDigit(d) < HexDigit(e) <==> d < e
  {
  }

  /** The page query compares hashes as lowercase text, the listing orders them as
      blobs: the two orders are one. */
  lemma {:induction false} HexKeepsOrder(a: seq<byte>, b: seq<byte>)
    requires |a| == |b|
    ensures TextBefore(Encode(a), Encode(b)) <==> BytesBefore(a, b)
  {
    if a != [] {
      var x, y := a[0] as nat, b[0] as nat;
      HexKeepsOrder(a[1..], b[1..]);
      var s, t := Encode(a), Encode(b);
      assert s[1..][1..] == Encode(a[1..]) && t[1..][1..] == Encode(b[1..]);
      DigitOrder(x / 16, y / 16);
      DigitOrder(y / 16, x / 16);
      DigitOrder(x % 16, y % 16);
      DigitOrder(y % 16, x % 16);
      assert s[0] == HexDigit(x / 16) && s[1..][0] == HexDigit(x % 16);
      assert t[0] == HexDigit(y / 16) && t[1..][0] == HexDigit(y % 16);
      assert TextBefore(s, t) <==> s[0] < t[0] || (s[0] == t[0] && TextBefore(s[1..], t[1..]));
      assert BytesBefore(a, b) <==> a[0] < b[0] || (a[0] == b[0] && BytesBefore(a[1..], b[1..]));
    }
  }

  // ------------------------------------------------------------------ hashes

  /** The `size` bytes of a number, most significant first. */
  function BigEndian(n: nat, size: nat): (bytes: seq<byte>)
    ensures |bytes| == size
  {
    if size == 0 then [] else BigEndian(n / 256, size - 1) + [(n % 256) as byte]
  }

  function Pow256(size: nat): nat { if size == 0 then 1 else 256 * Pow256(size - 1) }

  /** The blob a hash is stored as, and the text it is shown and compared as. */
  function Blob32(hash: Hash): seq<byte> { BigEndian(hash, 32) }

  function HashText(hash: Hash): string { Encode(Blob32(hash)) }

  lemma {:induction false} LastByteOrder(a: seq<byte>, b: seq<byte>, x: byte, y: byte)
    requires |a| == |b|
    ensures BytesBefore(a + [x], b + [y]) <==> BytesBefore(a, b) || (a == b && x < y)
  {
    if a != [] {
      assert (a + [x])[1..] == a[1..] + [x] && (b + [y])[1..] == b[1..] + [y];
      assert a == [a[0]] + a[1..] && b == [b[0]] + b[1..];
      LastByteOrder(a[1..], b[1..], x, y);
      assert BytesBefore(a, b) <==> a[0] < b[0] || (a[0] == b[0] && BytesBefore(a[1..], b[1..]));
    } else {
      assert a + [x] == [x] && b + [y] == [y] && [x][1..] == [] && !BytesBefore([x][1..], [y][1..]);
      assert BytesBefore([x], [y]) <==> ByteLess(x, y);
    }
  }

  lemma {:induction false} BigEndianOrder(m: nat, n: nat, size: nat)
    requires m < Pow256(size) && n < Pow256(size)
    ensures BytesBefore(BigEndian(m, size), BigEndian(n, size)) <==> m < n
    ensures BigEndian(m, size) == BigEndian(n, size) ==> m == n
  {
    if size > 0 {
      BigEndianOrder(m / 256, n / 256, size - 1);
      var a, b := BigEndian(m / 256, size - 1), BigEndian(n / 256, size - 1);
      LastByteOrder(a, b, (m % 256) as byte, (n % 256) as byte);
      if BigEndian(m, size) == BigEndian(n, size) {
        assert BigEndian(m, size)[size - 1] == (m % 256) as byte && BigEndian(n, size)[size - 1] == (n % 256) as byte;
        assert BigEndian(m, size)[..size - 1] == a && BigEndian(n, size)[..size - 1] == b;
      }
    }
  }

  lemma BytesSpellHashes()
    ensures Pow256(32) == HASH_LIMIT
  {
    assert Pow256(8) == 0x1_0000_0000_0000_0000;
    assert Pow256(16) == 0x1_0000_0000_0000_0000_0000_0000_0000_0000;
    assert Pow256(24) == 0x1_0000_0000_0000_0000_0000_0000_0000_0000_0000_0000_0000_0000;
  }

  /** Hashes compare as numbers exactly as their blobs and their texts do. */
  lemma HashOrder(g: Hash, h: Hash)
    ensures BytesBefore(Blob32(g), Blob32(h)) <==> g < h
    ensures TextBefore(HashText(g), HashText(h)) <==> g < h
  {
    BytesSpellHashes();
    BigEndianOrder(g, h, 32);
    HexKeepsOrder(Blob32(g), Blob32(h));
  }
}
