/** Strings, numbers and POSIX path pieces shared by every component of the pipeline. */
module Text {

  datatype Option<+T> = None | Some(value: T)

  datatype Result<+T, +E> = Success(value: T) | Failure(error: E)

  newtype Byte = x: int | 0 <= x < 256

  predicate StartsWith(s: string, prefix: string) {
    |prefix| <= |s| && s[..|prefix|] == prefix
  }

  predicate EndsWith(s: string, suffix: string) {
    |suffix| <= |s| && s[|s| - |suffix|..] == suffix
  }

  lemma EndsWithAppended(s: string, suffix: string)
    ensures EndsWith(s + suffix, suffix)
  {
    assert (s + suffix)[|s|..] == suffix;
  }

  lemma StartsWithPrepended(prefix: string, s: string)
    ensures StartsWith(prefix + s, prefix)
  {
    assert (prefix + s)[..|prefix|] == prefix;
  }

  /** `Array.prototype.join`: the parts with `sep` between neighbours. */
  function JoinWith(parts: seq<string>, sep: string): string {
    if |parts| == 0 then ""
    else if |parts| == 1 then parts[0]
    else parts[0] + sep + JoinWith(parts[1..], sep)
  }

  // ---------------------------------------------------------------------------
  // Decimal numbers, as JavaScript prints them and as `Number` reads a string of digits

  predicate IsDigit(c: char) {
    '0' <= c <= '9'
  }

  predicate AllDigits(s: string) {
    forall i :: 0 <= i < |s| ==> IsDigit(s[i])
  }

  function DigitChar(d: nat): (c: char)
    requires d < 10
  {
    ('0' as int + d) as char
  }

  function DigitValue(c: char): nat
    requires IsDigit(c)
  {
    c as int - '0' as int
  }

  /** The decimal text of `n`: digits only, never empty, no leading zero. */
  function NatToString(n: nat): (r: string)
    ensures |r| >= 1 && AllDigits(r)
    ensures r[0] == '0' ==> n == 0
  {
    if n < 10 then [DigitChar(n)] else NatToString(n / 10) + [DigitChar(n % 10)]
  }

  /** The number written by a string of decimal digits. */
  function DigitsValue(s: string): nat
    requires AllDigits(s)
  {
    if s == [] then 0 else DigitsValue(s[..|s| - 1]) * 10 + DigitValue(s[|s| - 1])
  }

  lemma {:induction false} NatToStringRoundTrip(n: nat)
    ensures DigitsValue(NatToString(n)) == n
  {
    if n >= 10 {
      var r := NatToString(n);
      assert r[..|r| - 1] == NatToString(n / 10);
      NatToStringRoundTrip(n / 10);
    }
  }

  /** `String(code)` for an integer exit code. */
  function IntToString(i: int): (r: string)
    ensures |r| >= 1
    ensures r[0] == '-' <==> i < 0
  {
    if i < 0 then "-" + NatToString(-i) else NatToString(i)
  }

  // ---------------------------------------------------------------------------
  // Lower-case hexadecimal, as `Buffer.toString("hex")` writes bytes

  predicate IsLowerHexDigit(c: char) {
    '0' <= c <= '9' || 'a' <= c <= 'f'
  }

  /** The value of a lower-case hexadecimal digit. */
  function HexValue(c: char): (v: nat)
    requires IsLowerHexDigit(c)
    ensures v < 16
  {
    if c <= '9' then c as int - '0' as int else c as int - 'a' as int + 10
  }

  function HexDigit(v: nat): (c: char)
    requires v < 16
    ensures IsLowerHexDigit(c) && HexValue(c) == v
  {
    if v < 10 then ('0' as int + v) as char else ('a' as int + v - 10) as char
  }

  /** A hexadecimal digit of either case, as percent-escapes are read. */
  predicate IsHexDigit(c: char) {
    '0' <= c <= '9' || 'a' <= c <= 'f' || 'A' <= c <= 'F'
  }

  function HexDigitValue(c: char): (v: nat)
    requires IsHexDigit(c)
    ensures v < 16
  {
    if c <= '9' then c as int - '0' as int
    else if c <= 'F' then c as int - 'A' as int + 10
    else c as int - 'a' as int + 10
  }

  /** An upper-case digit, as percent-escapes are written. */
  function UpperHexDigit(v: nat): (c: char)
    requires v < 16
    ensures IsHexDigit(c) && HexDigitValue(c) == v
  {
    if v < 10 then ('0' as int + v) as char else ('A' as int + v - 10) as char
  }

  /** Each byte becomes two digits, the high half first. */
  function Hex(bytes: seq<Byte>): (r: string)
    ensures |r| == 2 * |bytes|
    ensures forall i :: 0 <= i < |r| ==> IsLowerHexDigit(r[i])
    ensures forall i :: 0 <= i < |bytes| ==>
      r[2 * i] == HexDigit(bytes[i] as int / 16) && r[2 * i + 1] == HexDigit(bytes[i] as int % 16)
  {
    if bytes == [] then ""
    else
      var rest := Hex(bytes[1..]);
      var r := [HexDigit(bytes[0] as int / 16), HexDigit(bytes[0] as int % 16)] + rest;
      assert forall i :: 1 <= i < |bytes| ==> bytes[i] == bytes[1..][i - 1] && r[2 * i] == rest[2 * (i - 1)];
      r
  }

  /** Reads lower-case hexadecimal text back into bytes, two digits per byte. */
  function Unhex(s: string): (bytes: seq<Byte>)
    requires |s| % 2 == 0 && forall i :: 0 <= i < |s| ==> IsLowerHexDigit(s[i])
    ensures |bytes| == |s| / 2
  {
    seq(|s| / 2, i requires 0 <= i < |s| / 2 => (HexValue(s[2 * i]) * 16 + HexValue(s[2 * i + 1])) as Byte)
  }

  /** The two digits of a byte read back as that byte. */
  lemma HexDigitsOfByte(b: Byte)
    ensures (HexValue(HexDigit(b as int / 16)) * 16 + HexValue(HexDigit(b as int % 16))) as Byte == b
  {
  }

  /** The i-th byte read back from hexadecimal text is the i-th byte written. */
  lemma HexRoundTripAt(bytes: seq<Byte>, i: nat)
    requires i < |bytes|
    ensures |Unhex(Hex(bytes))| == |bytes| && Unhex(Hex(bytes))[i] == bytes[i]
  {
    var s := Hex(bytes);
    var b := bytes[i];
    assert s[2 * i] == HexDigit(b as int / 16) && s[2 * i + 1] == HexDigit(b as int % 16);
    assert Unhex(s)[i] == (HexValue(s[2 * i]) * 16 + HexValue(s[2 * i + 1])) as Byte;
    HexDigitsOfByte(b);
  }

  /** Hexadecimal text reads back as the bytes it was written from. */
  lemma HexRoundTrip(bytes: seq<Byte>)
    ensures Unhex(Hex(bytes)) == bytes
  {
    var r := Unhex(Hex(bytes));
    forall i | 0 <= i < |bytes|
      ensures r[i] == bytes[i]
    {
      HexRoundTripAt(bytes, i);
    }
    assert |r| == |bytes|;
  }

  /** Different bytes never give the same hexadecimal text. */
  lemma HexInjective(a: seq<Byte>, b: seq<Byte>)
    requires Hex(a) == Hex(b)
    ensures a == b
  {
    HexRoundTrip(a);
    HexRoundTrip(b);
  }

  // ---------------------------------------------------------------------------
  // POSIX paths

  /** `path.join(dir, name)` for a normalised directory and a plain file name. */
  function PathJoin(dir: string, name: string): string {
    dir + "/" + name
  }

  /** `p` without the `/` characters at its end. */
  function TrimTrailingSlashes(p: string): (r: string)
    ensures StartsWith(p, r)
    ensures r == [] || r[|r| - 1] != '/'
    ensures forall i :: |r| <= i < |p| ==> p[i] == '/'
  {
    if p == [] || p[|p| - 1] != '/' then p else TrimTrailingSlashes(p[..|p| - 1])
  }

  /** The text after the last `/` of `p`, or all of `p` when it has none
      (`p.split("/").pop()`). */
  function AfterLastSlash(p: string): (r: string)
    ensures '/' !in r
    ensures EndsWith(p, r)
    ensures |r| < |p| ==> p[|p| - |r| - 1] == '/'
  {
    if p == [] then ""
    else if p[|p| - 1] == '/' then ""
    else AfterLastSlash(p[..|p| - 1]) + [p[|p| - 1]]
  }

  /** `path.basename(p)` on POSIX: trailing slashes are ignored, then the last segment. */
  function Basename(p: string): (r: string)
    ensures '/' !in r
  {
    AfterLastSlash(TrimTrailingSlashes(p))
  }

  lemma {:induction false} AfterLastSlashOfSegment(dir: string, name: string)
    requires '/' !in name
    ensures AfterLastSlash(dir + "/" + name) == name
  {
    if name == [] {
      assert (dir + "/" + name)[|dir + "/" + name| - 1] == '/';
    } else {
      var s := dir + "/" + name;
      var init := name[..|name| - 1];
      assert s[..|s| - 1] == dir + "/" + init;
      assert s[|s| - 1] == name[|name| - 1];
      AfterLastSlashOfSegment(dir, init);
      assert init + [name[|name| - 1]] == name;
    }
  }

  /** A name without `/` is its own basename; a path ending in `/name` has basename `name`. */
  lemma BasenameOfJoin(dir: string, name: string)
    requires '/' !in name && name != ""
    ensures Basename(PathJoin(dir, name)) == name
    ensures Basename(name) == name
  {
    var s := dir + "/" + name;
    assert s[|s| - 1] == name[|name| - 1];
    assert TrimTrailingSlashes(s) == s;
    AfterLastSlashOfSegment(dir, name);
    assert TrimTrailingSlashes(name) == name;
    AfterLastSlashWhole(name);
  }

  lemma {:induction false} AfterLastSlashWhole(name: string)
    requires '/' !in name
    ensures AfterLastSlash(name) == name
  {
    if name != [] {
      assert name[..|name| - 1] + [name[|name| - 1]] == name;
      AfterLastSlashWhole(name[..|name| - 1]);
    }
  }
}
