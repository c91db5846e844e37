/** The text handling the source relies on: Python's int(s, 16) and int(s)
    on the short texts of a hex dump, and Python's clamping slices. */
module HexText {

  import opened Results

  predicate IsHexDigit(c: char)
  {
    '0' <= c <= '9' || 'a' <= c <= 'f' || 'A' <= c <= 'F'
  }

  predicate IsDecimalDigit(c: char)
  {
    '0' <= c <= '9'
  }

  function DigitValue(c: char): (v: nat)
    requires IsHexDigit(c)
    ensures v < 16
    ensures IsDecimalDigit(c) ==> v == c as int - '0' as int
  {
    if '0' <= c <= '9' then c as int - '0' as int
    else if 'a' <= c <= 'f' then c as int - 'a' as int + 10
    else c as int - 'A' as int + 10
  }

  predicate AllHex(s: string)
  {
    forall i :: 0 <= i < |s| ==> IsHexDigit(s[i])
  }

  function Pow16(n: nat): (p: nat)
    ensures p >= 1
  {
    if n == 0 then 1 else 16 * Pow16(n - 1)
  }

  /** Positional value of a hexadecimal digit string, most significant first. */
  function HexNat(s: string): (v: nat)
    requires AllHex(s)
    ensures v < Pow16(|s|)
  {
    if s == [] then 0
    else
      var d, rest := DigitValue(s[0]), HexNat(s[1..]);
      DigitBound(d, Pow16(|s| - 1), rest);
      d * Pow16(|s| - 1) + rest
  }

  lemma DigitBound(d: nat, p: nat, rest: nat)
    requires d < 16 && rest < p
    ensures d * p + rest < 16 * p
  {
    var k: nat := 15 - d;
    assert k * p >= 0;
    assert 15 * p == d * p + k * p;
  }

  /** int(s, 16): defined exactly when s is a non-empty run of hex digits. */
  function ParseHex(s: string): (r: Option<nat>)
    ensures r.Some? <==> s != [] && AllHex(s)
    ensures r.Some? ==> r.value < Pow16(|s|)
  {
    if s != [] && AllHex(s) then Some(HexNat(s)) else None
  }

  /** The characters int() skips around its digits: the ASCII whitespace,
      the separators 0x1C..0x1F and the Unicode spaces. */
  predicate IsSpace(c: char)
  {
    || c == ' ' || '\t' <= c <= '\r' || '\U{1c}' <= c <= '\U{1f}'
    || c == '\U{85}' || c == '\U{a0}' || c == '\U{1680}'
    || '\U{2000}' <= c <= '\U{200a}' || c == '\U{2028}' || c == '\U{2029}'
    || c == '\U{202f}' || c == '\U{205f}' || c == '\U{3000}'
  }

  /** Every character of s is a space. */
  predicate AllSpace(s: string)
  {
    forall k :: 0 <= k < |s| ==> IsSpace(s[k])
  }

  /** s with its leading spaces removed. */
  function TrimLeft(s: string): (r: string)
    ensures |r| <= |s| && r == s[|s| - |r|..]
    ensures AllSpace(s[..|s| - |r|])
    ensures r != [] ==> !IsSpace(r[0])
  {
    if s != [] && IsSpace(s[0]) then
      var r := TrimLeft(s[1..]);
      assert s[..|s| - |r|] == [s[0]] + s[1..][..|s| - 1 - |r|];
      r
    else s
  }

  /** s with its trailing spaces removed. */
  function TrimRight(s: string): (r: string)
    ensures |r| <= |s| && r == s[..|r|]
    ensures AllSpace(s[|r|..])
    ensures r != [] ==> !IsSpace(r[|r| - 1])
  {
    if s != [] && IsSpace(s[|s| - 1]) then
      var r := TrimRight(s[..|s| - 1]);
      assert s[|r|..] == s[..|s| - 1][|r|..] + [s[|s| - 1]];
      r
    else s
  }

  /** The digits int() reads: s without the spaces around it. */
  function Strip(s: string): string
  {
    TrimRight(TrimLeft(s))
  }

  /** A text that starts and ends with a hex digit is read as it stands. */
  lemma StripKeepsHex(s: string)
    requires s != [] && IsHexDigit(s[0]) && IsHexDigit(s[|s| - 1])
    ensures Strip(s) == s
  {
    assert TrimLeft(s) == s;
  }

  /** A text of spaces after one hex digit is read as that digit. */
  lemma StripTrailing(d: char, t: string)
    requires IsHexDigit(d) && AllSpace(t)
    ensures Strip([d] + t) == [d]
  {
    var s := [d] + t;
    assert TrimLeft(s) == s && !IsSpace(s[0]);
    assert forall k :: 1 <= k < |s| ==> s[k] == t[k - 1];
    var r := TrimRight(s);
    assert |r| == 1;
  }

  /** int(s) succeeds: s is a non-empty run of decimal digits. For the
      two-character texts of the dump this is "a valid BCD byte". */
  predicate IsDecimal(s: string)
  {
    s != [] && forall i :: 0 <= i < |s| ==> IsDecimalDigit(s[i])
  }

  /** Python's s[i:j] for 0 <= i, 0 <= j: out-of-range bounds are clamped. */
  function Slice(s: string, i: nat, j: nat): (r: string)
    ensures |r| == if i < j && i < |s| then (if j < |s| then j else |s|) - i else 0
    ensures forall k :: 0 <= k < |r| ==> r[k] == s[i + k]
  {
    if i >= |s| || j <= i then [] else s[i..if j < |s| then j else |s|]
  }

  /** Python's s[:n] for n >= 0. */
  function Take(s: string, n: nat): string
  {
    Slice(s, 0, n)
  }

  /** Python's s[n:] for n >= 0. */
  function Drop(s: string, n: nat): string
  {
    if n >= |s| then [] else s[n..]
  }

  lemma {:induction false} TakeDrop(s: string, n: nat)
    ensures Take(s, n) + Drop(s, n) == s
  {
    if n < |s| {
      assert s[..n] + s[n..] == s;
    } else {
      assert s[0..|s|] == s;
    }
  }

  /** A leading digit contributes its value times 16 to the power of the
      number of digits after it. */
  lemma LeadingDigit(d: char, s: string)
    requires IsHexDigit(d) && AllHex(s)
    ensures AllHex([d] + s)
    ensures HexNat([d] + s) == DigitValue(d) * Pow16(|s|) + HexNat(s)
  {
    assert ([d] + s)[1..] == s;
  }
}
