/** Turning the text of the three hex dumps into the address map: the per-line
    transform of file2List and the dictionary fill of list2Map. */
module Dump {

  import opened Results
  import opened HexText
  import opened ByteStore

  /** file2List keeps the first 53 characters of a line. */
  const LINE_KEEP: nat := 53
  /** list2Map: the first byte's text starts at column 6, a byte every 3 columns. */
  const FIRST_COLUMN: nat := 6
  const COLUMN_STEP: nat := 3
  const BYTES_PER_LINE: nat := 16

  /** One line of file2List: the chip prefix in front of the line's first 53 characters. */
  function TagLine(prefix: string, line: string): string
  {
    prefix + Take(line, LINE_KEEP)
  }

  /** file2List(fname, prefix) once the file has been read into lines: line i
      becomes the prefix followed by the first min(|line|, 53) characters of
      line i, and nothing else. */
  function TagLines(prefix: string, lines: seq<string>): (r: seq<string>)
    ensures |r| == |lines|
    ensures forall i :: 0 <= i < |lines| ==>
      var n := if |lines[i]| < LINE_KEEP then |lines[i]| else LINE_KEEP;
      && |r[i]| == |prefix| + n
      && r[i][..|prefix|] == prefix
      && r[i][|prefix|..] == lines[i][..n]
  {
    seq(|lines|, i requires 0 <= i < |lines| => TagLine(prefix, lines[i]))
  }

  /** The prefix character of chip 0, 1 or 2. */
  function ChipPrefix(chip: nat): string
    requires chip < 3
  {
    [('0' as int + chip) as char]
  }

  /** int(line[:5], 16), the first address a line describes; int() skips the
      spaces around the digits, so a blank line tagged "0\n" is address 0. */
  function LineBase(line: string): Option<nat>
  {
    ParseHex(Strip(Take(line, 5)))
  }

  /** The text list2Map stores for byte b of a line: line[6 + 3b : 8 + 3b]. */
  function Field(line: string, b: nat): string
  {
    Slice(line, FIRST_COLUMN + COLUMN_STEP * b, FIRST_COLUMN + COLUMN_STEP * b + 2)
  }

  /** The first n entries a line with base address a contributes. */
  function LineFields(a: int, line: string, n: nat): map<int, string>
  {
    if n == 0 then map[] else LineFields(a, line, n - 1)[a + n - 1 := Field(line, n - 1)]
  }

  lemma {:induction false} LineFieldsAt(a: int, line: string, n: nat, k: int)
    ensures k in LineFields(a, line, n) <==> a <= k < a + n
    ensures a <= k < a + n ==> LineFields(a, line, n)[k] == Field(line, k - a)
  {
    if n > 0 {
      LineFieldsAt(a, line, n - 1, k);
    }
  }

  /** list2Map's loop from an already filled map acc over the remaining lines. */
  function Parse(acc: Store, lines: seq<string>): Result<Store>
    decreases |lines|
  {
    if lines == [] then Ok(acc)
    else match LineBase(lines[0])
      case None => Err(BadLineAddress(Take(lines[0], 5)))
      case Some(a) => Parse(acc + LineFields(a, lines[0], BYTES_PER_LINE), lines[1..])
  }

  /** true when line has a readable address and describes address k. */
  predicate Covers(line: string, k: int)
  {
    LineBase(line).Some? && LineBase(line).value <= k < LineBase(line).value + BYTES_PER_LINE
  }

  /** list2Map(l). */
  method List2Map(l: seq<string>) returns (r: Result<Store>)
    ensures r == Parse(map[], l)
  {
    var m: Store := map[];
    var i := 0;
    while i < |l|
      invariant 0 <= i <= |l|
      invariant Parse(map[], l) == Parse(m, l[i..])
    {
      var line := l[i];
      assert l[i..][0] == line && l[i..][1..] == l[i + 1..];
      var base := LineBase(line);
      if base.None? {
        return Err(BadLineAddress(Take(line, 5)));
      }
      m := FillLine(m, base.value, line);
      i := i + 1;
    }
    r := Ok(m);
  }

  /** The inner loop of list2Map: the 16 bytes of one line stored from address a on. */
  method FillLine(m0: Store, a: int, line: string) returns (m: Store)
    ensures m == m0 + LineFields(a, line, BYTES_PER_LINE)
  {
    hide ParseHex;
    m := m0;
    var adr := a;
    var b := 0;
    while b < BYTES_PER_LINE
      invariant 0 <= b <= BYTES_PER_LINE
      invariant adr == a + b
      invariant m == m0 + LineFields(a, line, b)
    {
      var idx := FIRST_COLUMN + b * COLUMN_STEP;
      assert Slice(line, idx, idx + 2) == Field(line, b);
      FillStep(m0, a, line, b);
      m := m[adr := Slice(line, idx, idx + 2)];
      adr := adr + 1;
      b := b + 1;
    }
  }

  /** One pass of list2Map's inner loop stores byte b of the line. */
  lemma FillStep(m0: Store, a: int, line: string, b: nat)
    ensures (m0 + LineFields(a, line, b))[a + b := Field(line, b)] == m0 + LineFields(a, line, b + 1)
  {
    var f := LineFields(a, line, b);
    assert LineFields(a, line, b + 1) == f[a + b := Field(line, b)];
    var l, r := (m0 + f)[a + b := Field(line, b)], m0 + f[a + b := Field(line, b)];
    assert l.Keys == r.Keys;
    forall j | j in l ensures l[j] == r[j] {
    }
  }

  /** A tagged line of chip 0, 1 or 2 describes the chip-local address plus chip * 0x10000. */
  lemma ChipAddress(chip: nat, line: string)
    requires chip < 3
    requires |line| >= 4 && AllHex(line[..4])
    ensures LineBase(TagLine(ChipPrefix(chip), line)) == Some(chip * 0x10000 + HexNat(line[..4]))
  {
    var d := ('0' as int + chip) as char;
    var t := TagLine(ChipPrefix(chip), line);
    assert Take(t, 5) == [d] + line[..4];
    StripKeepsHex([d] + line[..4]);
    LeadingDigit(d, line[..4]);
    assert Pow16(4) == 0x10000;
  }

  /** A blank line (only spaces, such as "\n" or "\r\n") is not rejected:
      int() skips the spaces after the chip prefix, so the line stands for
      address chip and, being short, for 16 empty byte texts. */
  lemma BlankLine(chip: nat, t: string)
    requires chip < 3 && |t| <= 5
    requires AllSpace(t)
    ensures LineBase(TagLine(ChipPrefix(chip), t)) == Some(chip)
    ensures forall b :: 0 <= b < BYTES_PER_LINE ==> Field(TagLine(ChipPrefix(chip), t), b) == ""
  {
    var d := ('0' as int + chip) as char;
    var line := TagLine(ChipPrefix(chip), t);
    assert line == [d] + t;
    assert Take(line, 5) == [d] + Take(t, 4);
    StripTrailing(d, Take(t, 4));
    assert HexNat([d]) == DigitValue(d) + 0;
  }

  /** The same for every line of a chip's dump. */
  lemma ChipLines(chip: nat, lines: seq<string>)
    requires chip < 3
    requires forall i :: 0 <= i < |lines| ==> |lines[i]| >= 4 && AllHex(lines[i][..4])
    ensures forall i :: 0 <= i < |lines| ==>
      LineBase(TagLines(ChipPrefix(chip), lines)[i]) == Some(chip * 0x10000 + HexNat(lines[i][..4]))
  {
    hide LineBase;
    forall i | 0 <= i < |lines|
      ensures LineBase(TagLines(ChipPrefix(chip), lines)[i]) == Some(chip * 0x10000 + HexNat(lines[i][..4]))
    {
      ChipAddress(chip, lines[i]);
    }
  }

  /** list2Map fails exactly when some line's address field is not hexadecimal. */
  lemma {:induction false} ParseOk(acc: Store, lines: seq<string>)
    decreases |lines|
    ensures Parse(acc, lines).Ok? <==> forall i :: 0 <= i < |lines| ==> LineBase(lines[i]).Some?
  {
    hide LineBase;
    if lines != [] && LineBase(lines[0]).Some? {
      var a := LineBase(lines[0]).value;
      ParseOk(acc + LineFields(a, lines[0], BYTES_PER_LINE), lines[1..]);
      assert forall i :: 1 <= i < |lines| ==> lines[i] == lines[1..][i - 1];
    }
  }

  /** The keys of the map: those already present, and the 16 consecutive
      addresses of every line; nothing else is touched. */
  lemma {:induction false} ParseKeys(acc: Store, lines: seq<string>, k: int)
    decreases |lines|
    requires Parse(acc, lines).Ok?
    ensures k in Parse(acc, lines).value <==>
      k in acc || exists i :: 0 <= i < |lines| && Covers(lines[i], k)
  {
    hide LineBase;
    if lines != [] {
      var a := LineBase(lines[0]).value;
      var acc' := acc + LineFields(a, lines[0], BYTES_PER_LINE);
      LineFieldsAt(a, lines[0], BYTES_PER_LINE, k);
      ParseKeys(acc', lines[1..], k);
      if exists i :: 0 <= i < |lines[1..]| && Covers(lines[1..][i], k) {
        var i :| 0 <= i < |lines[1..]| && Covers(lines[1..][i], k);
        assert Covers(lines[i + 1], k);
      }
      if exists i :: 0 <= i < |lines| && Covers(lines[i], k) {
        var i :| 0 <= i < |lines| && Covers(lines[i], k);
        if i > 0 {
          assert Covers(lines[1..][i - 1], k);
        }
      }
    }
  }

  /** A key nobody writes keeps its value. */
  lemma {:induction false} ParseKeeps(acc: Store, lines: seq<string>, k: int)
    decreases |lines|
    requires Parse(acc, lines).Ok?
    requires k in acc
    requires forall i :: 0 <= i < |lines| ==> !Covers(lines[i], k)
    ensures k in Parse(acc, lines).value && Parse(acc, lines).value[k] == acc[k]
  {
    hide LineBase;
    if lines != [] {
      var a := LineBase(lines[0]).value;
      assert !Covers(lines[0], k);
      var acc' := acc + LineFields(a, lines[0], BYTES_PER_LINE);
      LineFieldsAt(a, lines[0], BYTES_PER_LINE, k);
      forall i | 0 <= i < |lines[1..]| ensures !Covers(lines[1..][i], k) {
        assert lines[1..][i] == lines[i + 1];
      }
      ParseKeeps(acc', lines[1..], k);
    }
  }

  /** Byte b of line i, whose base is a, is stored at a + b unless a later line describes
      that address again: later lines overwrite earlier ones. */
  lemma {:induction false} ParseLastWriter(acc: Store, lines: seq<string>, i: nat, a: nat, b: nat)
    decreases |lines|
    requires Parse(acc, lines).Ok?
    requires i < |lines| && b < BYTES_PER_LINE
    requires LineBase(lines[i]) == Some(a)
    requires forall j :: i < j < |lines| ==> !Covers(lines[j], a + b)
    ensures a + b in Parse(acc, lines).value && Parse(acc, lines).value[a + b] == Field(lines[i], b)
  {
    hide LineBase;
    var a0 := LineBase(lines[0]).value;
    var acc' := acc + LineFields(a0, lines[0], BYTES_PER_LINE);
    var k := a + b;
    if i == 0 {
      LineFieldsAt(a0, lines[0], BYTES_PER_LINE, k);
      assert k in acc' && acc'[k] == Field(lines[0], b);
      forall j | 0 <= j < |lines[1..]| ensures !Covers(lines[1..][j], k) {
        assert lines[1..][j] == lines[j + 1];
      }
      ParseKeeps(acc', lines[1..], k);
    } else {
      assert lines[1..][i - 1] == lines[i];
      forall j | i - 1 < j < |lines[1..]| ensures !Covers(lines[1..][j], k) {
        assert lines[1..][j] == lines[j + 1];
      }
      ParseLastWriter(acc', lines[1..], i - 1, a, b);
    }
  }
}
