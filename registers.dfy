/** The meter's register map and what LP.__init__ derives from it: the
    active channels, the format of one channel value, the sampling interval,
    the start of the log and the 512-byte clusters it visits. */
module Registers {

  import opened Results
  import opened HexText
  import opened ByteStore

  const START_DATA: int := 0x5600
  const LP_END: int := 0x2FFDF
  const SIZE_CLUSTER: int := 0x200
  const SIZE_LPSNINT: int := 1
  const SIZE_TIME_STAMP: int := 3
  const SIZE_STATUS: int := 4
  const SIZE_DATE_STAMP: int := 3
  const SIZE_LPNRDAY: int := 1
  const SIZE_UNUSED_BYTE_EOC: int := 1
  const SIZE_EEPROM_0: int := 0x7FFF
  /** Added to a start address past the first chip, which holds only 0x8000 bytes. */
  const CHIP_GAP: int := 0x8000
  /** First address of the second chip in the merged address space. */
  const SECOND_CHIP: int := 0x10000
  /** Upper bound of the cluster enumeration in the second and third chip. */
  const LOG_LIMIT: int := 0x2FFFF

  const DISFLG: int := 0x051B
  const ELPSMOD: int := 0x0789
  const DPLOCE: int := 0x04C1
  const DPLOCD: int := 0x04C2
  const ELGINT: int := 0x078E
  const EUISIZE: int := 0x079A
  /** The eight channel-selector registers. */
  const ELPCH: seq<int> := [0x0787, 0x0788, 0x078A, 0x078B, 0x078C, 0x078D, 0x0790, 0x0791]

  /** Digit counts of the energy registers, the power registers and the
      energy advances, keyed by a two-bit code. The last table has no entry
      for the codes 0 and 1. */
  function EregsDigits(code: nat): Option<nat>
  {
    match code
    case 0 => Some(8)
    case 1 => Some(7)
    case 2 => Some(6)
    case 3 => Some(5)
    case _ => None
  }

  function PwrDigits(code: nat): Option<nat>
  {
    match code
    case 0 => Some(4)
    case 1 => Some(3)
    case 2 => Some(6)
    case 3 => Some(5)
    case _ => None
  }

  function EnerDigits(code: nat): Option<nat>
  {
    match code
    case 2 => Some(6)
    case 3 => Some(5)
    case _ => None
  }

  /** MESSGROESSE_MAP: the physical quantity a channel-selector code stands for,
      None for a code the table does not hold. */
  function QuantityLabel(code: nat): Option<string>
  {
    match code
    case 0x00 => Some("--")
    case 0x01 => Some("Q1")
    case 0x02 => Some("Q2")
    case 0x03 => Some("+Q")
    case 0x04 => Some("Q3")
    case 0x05 => Some("Q1+Q3")
    case 0x06 => Some("-Q(Q2+Q3)")
    case 0x07 => Some("Q1+Q2+Q3")
    case 0x08 => Some("Q4")
    case 0x09 => Some("+Q(Q1+Q4")
    case 0x0A => Some("Q2+Q4")
    case 0x0B => Some("Q1+Q2+Q4")
    case 0x0C => Some("-Q")
    case 0x0D => Some("Q1+Q3+Q4")
    case 0x0E => Some("Q2+Q3+Q4")
    case 0x0F => Some("Q1..Q4")
    case 0x10 => Some("-S")
    case 0x20 => Some("+S")
    case 0x30 => Some("+S,-S")
    case 0x40 => Some("-P[kW]")
    case 0x80 => Some("+P[kW]")
    case _ => None
  }

  /** The codes with a label: 0x00 to 0x10 and the four flags 0x20, 0x30, 0x40, 0x80. */
  lemma QuantityCodes(code: nat)
    ensures QuantityLabel(code).Some? <==> code <= 0x10 || code == 0x20 || code == 0x30 || code == 0x40 || code == 0x80
  {
  }

  /** The three record layouts ('Energieregister', 'Ernergievorschub',
      'Leistungsmittelwerte'). */
  datatype Kind = EnergyRegisters | EnergyAdvance | PowerAverages

  /** Layout and width in bytes of one channel value, and where its decimal point goes. */
  datatype Format = Format(kind: Kind, entrySize: nat, decimal: nat)

  /** (param & 0b11000000) >> 6, (param & 0b00110000) >> 4, (param & 0b00001100) >> 2. */
  function DisflgEE(param: nat): nat { param / 64 % 4 }
  function DisflgDD(param: nat): nat { param / 16 % 4 }
  function DisflgCC(param: nat): nat { param / 4 % 4 }

  /** v & 0b11, the decimal-point field of DPLOCE and DPLOCD. */
  function LowBits(v: nat): nat { v % 4 }

  /** mode & 0b00100000 and mode & 0b00010000. */
  function ModeRegs(mode: nat): nat { mode / 32 % 2 * 32 }
  function ModeEner(mode: nat): nat { mode / 16 % 2 * 16 }

  /** The arithmetic above is the source's masking and shifting on a byte. */
  lemma DisflgBitFields(p: bv8)
    ensures DisflgEE(p as nat) == ((p & 0xC0) >> 6) as nat
    ensures DisflgDD(p as nat) == ((p & 0x30) >> 4) as nat
    ensures DisflgCC(p as nat) == ((p & 0x0C) >> 2) as nat
  {
    MaskEE(p);
    MaskDD(p);
    MaskCC(p);
  }

  lemma ModeBitFields(p: bv8)
    ensures LowBits(p as nat) == (p & 0x03) as nat
    ensures ModeRegs(p as nat) == (p & 0x20) as nat
    ensures ModeEner(p as nat) == (p & 0x10) as nat
  {
    MaskLow(p);
    MaskRegs(p);
    MaskEner(p);
  }

  lemma MaskEE(p: bv8) ensures DisflgEE(p as nat) == ((p & 0xC0) >> 6) as nat {}
  lemma MaskDD(p: bv8) ensures DisflgDD(p as nat) == ((p & 0x30) >> 4) as nat
  {
    var q := p >> 4;
    assert (p & 0x30) >> 4 == q & 0x03;
    assert q as nat == p as nat / 16;
    MaskLow(q);
  }
  lemma MaskCC(p: bv8) ensures DisflgCC(p as nat) == ((p & 0x0C) >> 2) as nat
  {
    var q := p >> 2;
    assert (p & 0x0C) >> 2 == q & 0x03;
    assert q as nat == p as nat / 4;
    MaskLow(q);
  }
  lemma MaskLow(p: bv8) ensures LowBits(p as nat) == (p & 0x03) as nat {}
  lemma MaskRegs(p: bv8) ensures ModeRegs(p as nat) == (p & 0x20) as nat {}
  lemma MaskEner(p: bv8) ensures ModeEner(p as nat) == (p & 0x10) as nat {}

  /** Bytes per value for a digit count: (digits + 2 // 2) // 2, and since
      2 // 2 binds first this is ceil(digits / 2), two BCD digits per byte. */
  function EntrySize(digits: nat): (r: nat)
    ensures 2 * r == digits || 2 * r == digits + 1
  {
    (digits + 2 / 2) / 2
  }

  /** The layout chosen by the mode register and the digit codes. */
  function EntryFormat(ee: nat, dd: nat, cc: nat, dplocE: nat, dplocD: nat, regs: nat, ener: nat): Result<Format>
  {
    if regs != 0 then
      match EregsDigits(ee)
      case None => Err(NoDigitTable(ee))
      case Some(n) => Ok(Format(EnergyRegisters, EntrySize(n), dplocE))
    else if ener != 0 then
      var key := if cc < 2 then ee else cc;
      match EnerDigits(key)
      case None => Err(NoDigitTable(key))
      case Some(n) => Ok(Format(EnergyAdvance, EntrySize(n), dplocE))
    else
      match PwrDigits(dd)
      case None => Err(NoDigitTable(dd))
      case Some(n) => Ok(Format(PowerAverages, EntrySize(n), dplocD))
  }

  /** What the mode register selects: the registers bit wins over the
      energy-advance bit; the energy modes take the decimal point from
      DPLOCE and the power mode from DPLOCD; energy registers are 4 bytes
      wide for 8 or 7 digits and 3 otherwise, energy advances always 3,
      power averages 2 bytes for 4 or 3 digits and 3 otherwise; the one
      failure is an energy-advance layout whose codes both lie below 2. */
  lemma FormatByMode(ee: nat, dd: nat, cc: nat, dplocE: nat, dplocD: nat, regs: nat, ener: nat)
    requires ee < 4 && dd < 4 && cc < 4
    ensures var r := EntryFormat(ee, dd, cc, dplocE, dplocD, regs, ener);
      && (r.Err? <==> regs == 0 && ener != 0 && cc < 2 && ee < 2)
      && (r.Err? ==> r.error == NoDigitTable(ee))
      && (regs != 0 ==> r == Ok(Format(EnergyRegisters, if ee < 2 then 4 else 3, dplocE)))
      && (regs == 0 && ener != 0 && r.Ok? ==> r == Ok(Format(EnergyAdvance, 3, dplocE)))
      && (regs == 0 && ener == 0 ==> r == Ok(Format(PowerAverages, if dd < 2 then 2 else 3, dplocD)))
  {
  }

  /** The first address after the fixed registers, before the chip-boundary correction. */
  function StartBase(euisize: nat): int
  {
    START_DATA + euisize * SIZE_CLUSTER
  }

  /** lp_start after the correction of a start past the first chip. */
  function LogStart(base: int): int
  {
    if base < SIZE_EEPROM_0 then base else base + CHIP_GAP
  }

  /** len(range(lo, hi, SIZE_CLUSTER)). */
  function ClusterCount(lo: int, hi: int): nat
  {
    if lo >= hi then 0 else (hi - lo - 1) / SIZE_CLUSTER + 1
  }

  /** range(lo, hi, SIZE_CLUSTER). */
  function ClusterRange(lo: int, hi: int): seq<int>
  {
    seq(ClusterCount(lo, hi), i => lo + SIZE_CLUSTER * i)
  }

  /** The cluster addresses LP.__init__ hands to add_data, in order. */
  function ClusterStarts(base: int): seq<int>
  {
    LogClusters(LogStart(base))
  }

  /** The cluster loops of LP.__init__ for the corrected lp_start. */
  function LogClusters(lpStart: int): seq<int>
  {
    if lpStart < SIZE_EEPROM_0 then ClusterRange(lpStart, SIZE_EEPROM_0) + ClusterRange(SECOND_CHIP, LOG_LIMIT)
    else ClusterRange(lpStart, LOG_LIMIT)
  }

  /** range(lo, hi, 0x200) is lo followed by range(lo + 0x200, hi) when lo < hi, and empty otherwise. */
  lemma ClusterRangeStep(lo: int, hi: int)
    ensures lo >= hi ==> ClusterRange(lo, hi) == []
    ensures lo < hi ==> ClusterRange(lo, hi) == [lo] + ClusterRange(lo + SIZE_CLUSTER, hi)
  {
    if lo < hi {
      var r, t := ClusterRange(lo, hi), ClusterRange(lo + SIZE_CLUSTER, hi);
      assert |r| == |t| + 1 by {
        if lo + SIZE_CLUSTER < hi {
          assert (hi - lo - 1) / SIZE_CLUSTER == (hi - (lo + SIZE_CLUSTER) - 1) / SIZE_CLUSTER + 1;
        }
      }
      forall i | 0 <= i < |r| ensures r[i] == ([lo] + t)[i] {
        if i > 0 {
          assert t[i - 1] == lo + SIZE_CLUSTER + SIZE_CLUSTER * (i - 1);
        }
      }
    }
  }

  /** c is visited by range(lo, hi, 0x200) exactly when it lies in [lo, hi)
      at a multiple of 0x200 from lo. */
  lemma ClusterRangeMembers(lo: int, hi: int, c: int)
    ensures c in ClusterRange(lo, hi) <==> lo <= c < hi && (c - lo) % SIZE_CLUSTER == 0
  {
    var r := ClusterRange(lo, hi);
    if lo <= c < hi && (c - lo) % SIZE_CLUSTER == 0 {
      var i := (c - lo) / SIZE_CLUSTER;
      assert r[i] == c;
    }
  }

  /** Starting in the first chip, the clusters are those from lp_start up to
      the first chip's end and then all of chips two and three; starting
      later, those from the corrected lp_start on. */
  lemma ClusterStartsMembers(base: int, c: int)
    ensures c in ClusterStarts(base) <==>
      if base < SIZE_EEPROM_0 then
        (base <= c < SIZE_EEPROM_0 && (c - base) % SIZE_CLUSTER == 0) ||
        (SECOND_CHIP <= c < LOG_LIMIT && (c - SECOND_CHIP) % SIZE_CLUSTER == 0)
      else
        LogStart(base) <= c < LOG_LIMIT && (c - LogStart(base)) % SIZE_CLUSTER == 0
  {
    if base < SIZE_EEPROM_0 {
      ClusterRangeMembers(base, SIZE_EEPROM_0, c);
      ClusterRangeMembers(SECOND_CHIP, LOG_LIMIT, c);
    } else {
      ClusterRangeMembers(base + CHIP_GAP, LOG_LIMIT, c);
    }
  }

  /** The clusters are visited in strictly ascending order, starting at the
      corrected lp_start, for every start the one-byte EUISIZE register can give. */
  lemma ClusterStartsOrder(euisize: nat)
    requires euisize < 256
    ensures var s := ClusterStarts(StartBase(euisize));
      && |s| > 0 && s[0] == LogStart(StartBase(euisize))
      && forall i, j :: 0 <= i < j < |s| ==> s[i] < s[j]
  {
    var base := StartBase(euisize);
    var s := ClusterStarts(base);
    if base < SIZE_EEPROM_0 {
      var a := ClusterRange(base, SIZE_EEPROM_0);
      forall i, j | 0 <= i < j < |s| ensures s[i] < s[j] {
        if j < |a| {
          assert s[i] == a[i] && s[j] == a[j];
        } else if i < |a| {
          assert s[i] == a[i] < SIZE_EEPROM_0;
          assert s[j] == ClusterRange(SECOND_CHIP, LOG_LIMIT)[j - |a|];
        } else {
          assert s[i] == ClusterRange(SECOND_CHIP, LOG_LIMIT)[i - |a|];
          assert s[j] == ClusterRange(SECOND_CHIP, LOG_LIMIT)[j - |a|];
        }
      }
    }
  }

  /** One step of Selectors, as the channel loop takes it. */
  lemma SelectorsStep(m: Store, k: nat)
    requires k < |ELPCH|
    ensures ReadHex(m, ELPCH[k]).Err? ==> Selectors(m, k) == Err(ReadHex(m, ELPCH[k]).error)
    ensures ReadHex(m, ELPCH[k]).Ok? && QuantityLabel(ReadHex(m, ELPCH[k]).value).None? ==>
      Selectors(m, k) == Err(UnknownQuantity(ReadHex(m, ELPCH[k]).value))
    ensures ReadHex(m, ELPCH[k]).Ok? && QuantityLabel(ReadHex(m, ELPCH[k]).value).Some? ==>
      Selectors(m, k) == Prepend([ReadHex(m, ELPCH[k]).value], Selectors(m, k + 1))
  {
  }

  /** The selector codes read from ELPCH[k..]; a code without a label raises. */
  function Selectors(m: Store, k: nat): Result<seq<nat>>
    decreases |ELPCH| - k
  {
    if k >= |ELPCH| then Ok([])
    else
      var v :- ReadHex(m, ELPCH[k]);
      if QuantityLabel(v).None? then Err(UnknownQuantity(v))
      else Prepend([v], Selectors(m, k + 1))
  }

  /** A selector register whose code the channel loop accepts. */
  predicate Accepted(m: Store, adr: int)
  {
    ReadHex(m, adr).Ok? && QuantityLabel(ReadHex(m, adr).value).Some?
  }

  /** The channel loop succeeds exactly when every remaining selector register
      holds a hex code with a label. */
  lemma {:induction false} SelectorsOk(m: Store, k: nat)
    requires k <= |ELPCH|
    ensures Selectors(m, k).Ok? <==> forall i :: k <= i < |ELPCH| ==> Accepted(m, ELPCH[i])
    decreases |ELPCH| - k
  {
    if k < |ELPCH| {
      SelectorsStep(m, k);
      assert Accepted(m, ELPCH[k]) <==> ReadHex(m, ELPCH[k]).Ok? && QuantityLabel(ReadHex(m, ELPCH[k]).value).Some?;
      hide ReadHex, QuantityLabel, Selectors, Accepted;
      SelectorsOk(m, k + 1);
      assert (forall i :: k <= i < |ELPCH| ==> Accepted(m, ELPCH[i])) <==>
        Accepted(m, ELPCH[k]) && forall i :: k + 1 <= i < |ELPCH| ==> Accepted(m, ELPCH[i]);
    }
  }

  /** A successful channel loop yields the codes in register order. */
  lemma {:induction false} SelectorsCodes(m: Store, k: nat)
    requires k <= |ELPCH| && Selectors(m, k).Ok?
    ensures var s := Selectors(m, k).value;
      && |s| == |ELPCH| - k
      && forall i :: 0 <= i < |s| ==> ReadHex(m, ELPCH[k + i]) == Ok(s[i])
    decreases |ELPCH| - k
  {
    if k < |ELPCH| {
      SelectorsStep(m, k);
      var v := ReadHex(m, ELPCH[k]);
      hide ReadHex, QuantityLabel, Selectors;
      SelectorsCodes(m, k + 1);
      var rest := Selectors(m, k + 1).value;
      assert Selectors(m, k).value == [v.value] + rest;
      forall i | 1 <= i < |rest| + 1 ensures ReadHex(m, ELPCH[k + i]) == Ok(([v.value] + rest)[i]) {
        assert ELPCH[k + i] == ELPCH[(k + 1) + (i - 1)];
      }
    }
  }

  /** num_of_active_channels as the source's loop counts it. */
  function ActiveCount(s: seq<nat>): nat
  {
    if s == [] then 0 else ActiveCount(s[..|s| - 1]) + (if s[|s| - 1] != 0 then 1 else 0)
  }

  lemma ActiveCountSnoc(s: seq<nat>, v: nat)
    ensures ActiveCount(s + [v]) == ActiveCount(s) + (if v != 0 then 1 else 0)
  {
    assert (s + [v])[..|s + [v]| - 1] == s;
  }

  /** The count is the number of selector positions holding a non-zero code. */
  lemma {:induction false} ActiveCountIsNonZero(s: seq<nat>)
    ensures ActiveCount(s) == |set i | 0 <= i < |s| && s[i] != 0|
  {
    if s != [] {
      var t := s[..|s| - 1];
      ActiveCountIsNonZero(t);
      var a := set i | 0 <= i < |t| && t[i] != 0;
      var b := set i | 0 <= i < |s| && s[i] != 0;
      if s[|s| - 1] != 0 {
        assert b == a + {|s| - 1};
      } else {
        assert b == a;
      }
    }
  }

  /** The configuration LP.__init__ decodes, in its fields' terms. */
  datatype Config = Config(
    elpch: seq<nat>, channels: nat,
    ee: nat, dd: nat, cc: nat, dplocE: nat, dplocD: nat, regs: nat, ener: nat,
    format: Format, interval: nat, euisize: nat, lpStart: int)

  /** The register reads of LP.__init__, in the source's order. */
  function DecodeConfig(m: Store): Result<Config>
  {
    var sel :- Selectors(m, 0);
    DecodeRegisters(m, sel)
  }

  /** A decoded configuration holds the eight selector codes as read, one
      active channel per non-zero code, the display fields of DISFLG, the
      decimal locations and mode bits as read, the format chosen from them,
      the interval and EUISIZE as read, and the start of the log after the
      chip-boundary correction. */
  lemma ConfigFields(m: Store)
    requires DecodeConfig(m).Ok?
    ensures var c := DecodeConfig(m).value;
      && |c.elpch| == |ELPCH|
      && (forall i :: 0 <= i < |ELPCH| ==> ReadHex(m, ELPCH[i]) == Ok(c.elpch[i]) && QuantityLabel(c.elpch[i]).Some?)
      && c.channels == |set i | 0 <= i < |c.elpch| && c.elpch[i] != 0|
      && RegisterFieldsHold(m, c)
  {
    var sel := Selectors(m, 0).value;
    RegisterFields(m, sel);
    hide ParseHex, QuantityLabel, EntryFormat, DecodeRegisters, RegisterFieldsHold;
    SelectorsOk(m, 0);
    SelectorsCodes(m, 0);
    var c := DecodeConfig(m).value;
    assert c == DecodeRegisters(m, sel).value;
    ActiveCountIsNonZero(c.elpch);
    forall i | 0 <= i < |ELPCH| ensures ReadHex(m, ELPCH[i]) == Ok(c.elpch[i]) && QuantityLabel(c.elpch[i]).Some? {
      assert ELPCH[i] == ELPCH[0 + i];
    }
  }

  /** The fields of c are those the register reads after the channel loop give. */
  predicate RegisterFieldsHold(m: Store, c: Config)
  {
    && ReadHex(m, DISFLG).Ok? && ReadHex(m, DPLOCE).Ok? && ReadHex(m, DPLOCD).Ok? && ReadHex(m, ELPSMOD).Ok?
    && c.ee == DisflgEE(ReadHex(m, DISFLG).value) && c.dd == DisflgDD(ReadHex(m, DISFLG).value)
    && c.cc == DisflgCC(ReadHex(m, DISFLG).value)
    && c.dplocE == LowBits(ReadHex(m, DPLOCE).value) && c.dplocD == LowBits(ReadHex(m, DPLOCD).value)
    && c.regs == ModeRegs(ReadHex(m, ELPSMOD).value) && c.ener == ModeEner(ReadHex(m, ELPSMOD).value)
    && EntryFormat(c.ee, c.dd, c.cc, c.dplocE, c.dplocD, c.regs, c.ener) == Ok(c.format)
    && ReadHex(m, ELGINT) == Ok(c.interval) && ReadHex(m, EUISIZE) == Ok(c.euisize)
    && c.lpStart == LogStart(StartBase(c.euisize))
  }

  /** The register reads after the channel loop: DISFLG, DPLOCE, DPLOCD and
      ELPSMOD are hex, and every field of the configuration is what they, the
      digit tables, ELGINT and EUISIZE give. */
  lemma RegisterFields(m: Store, sel: seq<nat>)
    requires DecodeRegisters(m, sel).Ok?
    ensures RegisterFieldsHold(m, DecodeRegisters(m, sel).value)
  {
    hide ParseHex, QuantityLabel, EntryFormat;
  }

  /** The reads that follow the channel selectors, sel being the codes already
      read; the selectors and their active count pass into the configuration
      unchanged. */
  function DecodeRegisters(m: Store, sel: seq<nat>): (r: Result<Config>)
    ensures r.Ok? ==> r.value.elpch == sel && r.value.channels == ActiveCount(sel)
  {
    var param :- ReadHex(m, DISFLG);
    var ee, dd, cc := DisflgEE(param), DisflgDD(param), DisflgCC(param);
    var e :- ReadHex(m, DPLOCE);
    var d :- ReadHex(m, DPLOCD);
    var mode :- ReadHex(m, ELPSMOD);
    var f :- EntryFormat(ee, dd, cc, LowBits(e), LowBits(d), ModeRegs(mode), ModeEner(mode));
    var interval :- ReadHex(m, ELGINT);
    var euisize :- ReadHex(m, EUISIZE);
    Ok(Config(sel, ActiveCount(sel), ee, dd, cc, LowBits(e), LowBits(d), ModeRegs(mode), ModeEner(mode),
              f, interval, euisize, LogStart(StartBase(euisize))))
  }
}
