/** The LP object: __init__ decodes the configuration and hands every cluster
    of the log to add_data, which appends the cluster's readings to self.lp.
    LP(m) is `new LoadProfile()` followed by `Init(m)`; a failed Init is the
    exception that ends the run. */
module ReadLp {

  import opened Results
  import opened HexText
  import opened ByteStore
  import opened Registers
  import opened Cluster

  function LayoutOf(c: Config): Layout
  {
    Layout(c.channels, c.format.entrySize, c.format.decimal, c.interval, c.lpStart)
  }

  /** self.lp after LP(m): the configuration decoded, then the readings of
      every cluster visited, in visiting order. */
  function Reconstruct(m: Store): Result<seq<Reading>>
  {
    var c :- DecodeConfig(m);
    Walk(m, LayoutOf(c), LogClusters(c.lpStart))
  }

  /** The clusters walked are those ClusterStarts enumerates from EUISIZE:
      with a configuration decoded, self.lp is the walk over them. */
  lemma ReconstructVisits(m: Store)
    requires DecodeConfig(m).Ok?
    ensures var c := DecodeConfig(m).value;
      Reconstruct(m) == Walk(m, LayoutOf(c), ClusterStarts(StartBase(c.euisize)))
  {
    ConfigFields(m);
  }


  class LoadProfile {
    var lp: seq<Reading>
    var elpch: seq<nat>
    var numActive: nat
    var disflgEE: nat
    var disflgDD: nat
    var disflgCC: nat
    var dplocE: nat
    var dplocD: nat
    var lpRegs: nat
    var lpEner: nat
    var lpType: Kind
    var entrySize: nat
    var decimal: nat
    var interval: nat
    var euisize: nat
    var lpStart: int

    /** The object before the body of __init__ has run. */
    constructor ()
      ensures lp == [] && elpch == [] && numActive == 0
    {
      lp := [];
      elpch := [];
      numActive := 0;
    }

    /** The fields add_data reads. */
    function Layout(): Layout
      reads this
    {
      Cluster.Layout(numActive, entrySize, decimal, interval, lpStart)
    }

    /** The decoded configuration held in the fields. */
    function Config(): Config
      reads this
    {
      Registers.Config(elpch, numActive, disflgEE, disflgDD, disflgCC, dplocE, dplocD, lpRegs, lpEner,
                       Format(lpType, entrySize, decimal), interval, euisize, lpStart)
    }

    /** LP.__init__(m). */
    method Init(m: Store) returns (o: Outcome)
      modifies this
      ensures o.Pass? <==> Reconstruct(m).Ok?
      ensures o.Fail? ==> Reconstruct(m) == Err(o.error)
      ensures o.Pass? ==> DecodeConfig(m) == Ok(Config()) && lp == Reconstruct(m).value
    {
      hide Walk;
      lp := [];
      o := ReadConfig(m);
      if o.Fail? {
        return;
      }
      // every cluster of the log, in order
      o := AddLog(m);
    }

    /** __init__ up to the cluster loops: the channel loop and the register reads. */
    method ReadConfig(m: Store) returns (o: Outcome)
      modifies this`elpch, this`numActive, this`disflgEE, this`disflgDD, this`disflgCC, this`dplocE, this`dplocD,
        this`lpRegs, this`lpEner, this`lpType, this`entrySize, this`decimal, this`interval, this`euisize, this`lpStart
      ensures o.Pass? <==> DecodeConfig(m).Ok?
      ensures o.Fail? ==> DecodeConfig(m) == Err(o.error)
      ensures o.Pass? ==> DecodeConfig(m) == Ok(Config())
    {
      hide DecodeRegisters, Selectors;
      // the selector codes and how many of them are non-zero
      o := ReadChannels(m);
      if o.Fail? {
        return;
      }
      var r := DecodeRegisters(m, elpch);
      if r.Err? {
        return Fail(r.error);
      }
      SetDisplay(r.value);
      SetFormat(r.value);
      SetLog(r.value);
    }

    /** The field assignments of __init__'s data-format check. */
    method SetDisplay(c: Config)
      modifies this`disflgEE, this`disflgDD, this`disflgCC, this`dplocE, this`dplocD
      ensures disflgEE == c.ee && disflgDD == c.dd && disflgCC == c.cc && dplocE == c.dplocE && dplocD == c.dplocD
    {
      disflgEE, disflgDD, disflgCC, dplocE, dplocD := c.ee, c.dd, c.cc, c.dplocE, c.dplocD;
    }

    /** The field assignments of __init__'s lp data type and entry format. */
    method SetFormat(c: Config)
      modifies this`lpRegs, this`lpEner, this`lpType, this`entrySize, this`decimal
      ensures lpRegs == c.regs && lpEner == c.ener && Format(lpType, entrySize, decimal) == c.format
    {
      lpRegs, lpEner, lpType, entrySize, decimal := c.regs, c.ener, c.format.kind, c.format.entrySize, c.format.decimal;
    }

    /** The field assignments of __init__'s interval and start address. */
    method SetLog(c: Config)
      modifies this`interval, this`euisize, this`lpStart
      ensures interval == c.interval && euisize == c.euisize && lpStart == c.lpStart
    {
      interval, euisize, lpStart := c.interval, c.euisize, c.lpStart;
    }

    /** The two cluster loops of __init__, from lp_start to the end of the log. */
    method AddLog(m: Store) returns (o: Outcome)
      modifies this`lp
      ensures o.Pass? <==> Walk(m, Layout(), LogClusters(lpStart)).Ok?
      ensures o.Pass? ==> lp == old(lp) + Walk(m, Layout(), LogClusters(lpStart)).value
      ensures o.Fail? ==> Walk(m, Layout(), LogClusters(lpStart)) == Err(o.error)
    {
      hide ClusterReadings, ClusterResults, Concat, Walk, ClusterRange;
      if lpStart < SIZE_EEPROM_0 {
        WalkAppend(m, Layout(), ClusterRange(lpStart, SIZE_EEPROM_0), ClusterRange(SECOND_CHIP, LOG_LIMIT));
        o := AddClusters(m, lpStart, SIZE_EEPROM_0);
        if o.Fail? {
          return;
        }
        o := AddClusters(m, SECOND_CHIP, LOG_LIMIT);
      } else {
        o := AddClusters(m, lpStart, LOG_LIMIT);
      }
    }

    /** The channel loop of __init__: one quantity code per selector register. */
    method ReadChannels(m: Store) returns (o: Outcome)
      modifies this`elpch, this`numActive
      ensures o.Pass? <==> Selectors(m, 0).Ok?
      ensures o.Fail? ==> Selectors(m, 0) == Err(o.error)
      ensures o.Pass? ==> elpch == Selectors(m, 0).value && numActive == ActiveCount(elpch)
    {
      hide ParseHex;
      var codes: seq<nat> := [];
      var active := 0;
      PrependNil(Selectors(m, 0));
      var k := 0;
      while k < |ELPCH|
        invariant 0 <= k <= |ELPCH|
        invariant Selectors(m, 0) == Prepend(codes, Selectors(m, k))
        invariant active == ActiveCount(codes)
      {
        var adr := ELPCH[k];
        var v := ReadHex(m, adr);
        if v.Err? {
          assert Selectors(m, 0) == Err(v.error) by { SelectorsStep(m, k); }
          return Fail(v.error);
        }
        var code := v.value;
        if QuantityLabel(code).None? {
          assert Selectors(m, 0) == Err(UnknownQuantity(code)) by { SelectorsStep(m, k); }
          return Fail(UnknownQuantity(code));
        }
        assert Selectors(m, 0) == Prepend(codes + [code], Selectors(m, k + 1)) by {
          SelectorsStep(m, k);
          PrependTwice(codes, [code], Selectors(m, k + 1));
        }
        ActiveCountSnoc(codes, code);
        codes := codes + [code];
        if code != 0 {
          active := active + 1;
        }
        k := k + 1;
      }
      PrependAll(codes);
      elpch, numActive := codes, active;
      return Pass;
    }

    /** The cluster loop of __init__ over range(lo, hi, SIZE_CLUSTER). */
    method AddClusters(m: Store, lo: int, hi: int) returns (o: Outcome)
      modifies this`lp
      ensures o.Pass? <==> Walk(m, Layout(), ClusterRange(lo, hi)).Ok?
      ensures o.Pass? ==> lp == old(lp) + Walk(m, Layout(), ClusterRange(lo, hi)).value
      ensures o.Fail? ==> Walk(m, Layout(), ClusterRange(lo, hi)) == Err(o.error)
    {
      hide ClusterReadings;
      var starts := ClusterRange(lo, hi);
      ghost var rs := ClusterResults(m, Layout(), starts);
      ghost var added: seq<Reading> := [];
      PrependNil(Concat(rs));
      var k := 0;
      while k < |starts|
        invariant k <= |starts|
        invariant lp == old(lp) + added
        invariant Concat(rs) == Prepend(added, Concat(rs[k..]))
      {
        ConcatStep(rs, k, added);
        ClusterResultsAt(m, Layout(), starts, k);
        var r := AddData(m, starts[k]);
        if r.Fail? {
          return r;
        }
        added := added + rs[k].value;
        k := k + 1;
      }
      assert rs[k..] == [];
      PrependAll(added);
      return Pass;
    }

    /** LP.add_data(m, start_addr). */
    method AddData(m: Store, start: int) returns (o: Outcome)
      modifies this`lp
      ensures o.Pass? <==> ClusterReadings(m, Layout(), start).Ok?
      ensures o.Pass? ==> lp == old(lp) + ClusterReadings(m, Layout(), start).value
      ensures o.Fail? ==> ClusterReadings(m, Layout(), start) == Err(o.error)
    {
      hide GroupReadings, ParseHex;
      // the directory count byte, two bytes before the cluster end
      var cnt := ReadHex(m, start + SIZE_CLUSTER - 2);
      if cnt.Err? {
        return Fail(cnt.error);
      }
      var lpnrday := cnt.value;
      // a count of 0 is read as one date stamp
      if lpnrday == 0 {
        lpnrday := lpnrday + 1;
      }
      var dir := ReadDateStamps(m, start, lpnrday);
      if dir.Err? {
        return Fail(dir.error);
      }
      if dir.value.None? {
        // a non-hex date-stamp field abandons the cluster without an exception
        return Pass;
      }
      var stamps := dir.value.value;
      // max_addr: the directory's bytes taken off the cluster end
      var sizeDateStamps := SIZE_UNUSED_BYTE_EOC + SIZE_LPNRDAY + SIZE_DATE_STAMP * lpnrday;
      var maxAddr := start + SIZE_CLUSTER - sizeDateStamps;
      ghost var L := Layout();
      ghost var added: seq<Reading> := [];
      PrependNil(Groups(m, L, start, maxAddr, stamps, 0));
      var j := 0;
      while j < |stamps|
        invariant 0 <= j <= |stamps|
        invariant lp == old(lp) + added
        invariant Groups(m, L, start, maxAddr, stamps, 0) == Prepend(added, Groups(m, L, start, maxAddr, stamps, j))
      {
        ghost var gr := GroupReadings(m, L, start, maxAddr, stamps[j]);
        var r := AddGroup(m, start, maxAddr, stamps[j]);
        if r.Fail? {
          return r;
        }
        PrependTwice(added, gr.value, Groups(m, L, start, maxAddr, stamps, j + 1));
        added := added + gr.value;
        j := j + 1;
      }
      PrependAll(added);
      return Pass;
    }

    /** The date-stamp loop of add_data with its try block. */
    method ReadDateStamps(m: Store, start: int, lpnrday: nat) returns (r: Result<Option<seq<DateStamp>>>)
      ensures r == Directory(m, start, 0, lpnrday)
    {
      var list: seq<DateStamp> := [];
      PrependStampsNil(Directory(m, start, 0, lpnrday));
      var i := 0;
      while i < lpnrday
        invariant 0 <= i <= lpnrday
        invariant Directory(m, start, 0, lpnrday) == PrependStamps(list, Directory(m, start, i, lpnrday))
      {
        var a := start + SIZE_CLUSTER - 2 - 4 * (i + 1);
        if a !in m {
          return Err(KeyMissing(a));
        }
        var oo := ParseHex(m[a]);
        if oo.None? {
          return Ok(None);
        }
        if a + 1 !in m {
          return Err(KeyMissing(a + 1));
        }
        if a + 2 !in m {
          return Err(KeyMissing(a + 2));
        }
        if a + 3 !in m {
          return Err(KeyMissing(a + 3));
        }
        var yy, mm, dd := m[a + 1], m[a + 2], m[a + 3];
        if !IsDecimal(yy) || !IsDecimal(mm) || !IsDecimal(dd) {
          return Ok(None);
        }
        var stamp := DateStamp(oo.value, yy, mm, dd);
        assert StampAt(m, a) == Ok(Some(stamp));
        assert Directory(m, start, i, lpnrday) == PrependStamps([stamp], Directory(m, start, i + 1, lpnrday));
        PrependStampsTwice(list, [stamp], Directory(m, start, i + 1, lpnrday));
        list := list + [stamp];
        i := i + 1;
      }
      assert list + [] == list;
      assert Directory(m, start, i, lpnrday) == Ok(Some([]));
      return Ok(Some(list));
    }

    /** The body of add_data's loop for one date stamp. */
    method AddGroup(m: Store, start: int, maxAddr: int, d: DateStamp) returns (o: Outcome)
      modifies this`lp
      ensures o.Pass? <==> GroupReadings(m, Layout(), start, maxAddr, d).Ok?
      ensures o.Pass? ==> lp == old(lp) + GroupReadings(m, Layout(), start, maxAddr, d).value
      ensures o.Fail? ==> GroupReadings(m, Layout(), start, maxAddr, d) == Err(o.error)
    {
      // the group header at the stamp's word offset
      var idx := start + d.offset * 2;
      var h := ReadHex(m, idx);
      if h.Err? {
        return Fail(h.error);
      }
      var lpsnint := h.value;
      if IsLogEntry(lpsnint) {
        // bit 7 of the header marks a log entry, which holds no readings
        return Pass;
      }
      // hour, minute and second texts after the header
      idx := idx + SIZE_LPSNINT;
      if idx !in m {
        return Fail(KeyMissing(idx));
      }
      if idx + 1 !in m {
        return Fail(KeyMissing(idx + 1));
      }
      if idx + 2 !in m {
        return Fail(KeyMissing(idx + 2));
      }
      var hh, mi, ss := m[idx], m[idx + 1], m[idx + 2];
      var sTime := "20" + d.yy + d.mm + d.dd + hh + mi + ss;
      // the one-byte status, which moves the cursor SIZE_STATUS bytes
      idx := idx + SIZE_TIME_STAMP;
      var st := ReadHex(m, idx);
      if st.Err? {
        return Fail(st.error);
      }
      var status := st.value;
      assert sTime == StampText(d, hh, mi, ss);
      // one reading per interval, as many as the header says
      o := ReadRows(m, start, maxAddr, status, sTime, idx + SIZE_STATUS, lpsnint);
    }

    /** The interval loop of add_data: lpsnint readings from the cursor idx on. */
    method ReadRows(m: Store, start: int, maxAddr: int, status: nat, sTime: string, idx0: int, lpsnint: nat)
      returns (o: Outcome)
      modifies this`lp
      ensures o.Pass? <==> RowsFrom(m, Layout(), start, maxAddr, status, sTime, idx0, 0, lpsnint).Ok?
      ensures o.Pass? ==> lp == old(lp) + RowsFrom(m, Layout(), start, maxAddr, status, sTime, idx0, 0, lpsnint).value
      ensures o.Fail? ==> RowsFrom(m, Layout(), start, maxAddr, status, sTime, idx0, 0, lpsnint) == Err(o.error)
    {
      var idx := idx0;
      ghost var L := Layout();
      ghost var added: seq<Reading> := [];
      PrependNil(RowsFrom(m, L, start, maxAddr, status, sTime, idx, 0, lpsnint));
      var i := 0;
      while i < lpsnint
        invariant 0 <= i <= lpsnint
        invariant lp == old(lp) + added
        invariant RowsFrom(m, L, start, maxAddr, status, sTime, idx0, 0, lpsnint) ==
          Prepend(added, RowsFrom(m, L, start, maxAddr, status, sTime, idx, i, lpsnint))
      {
        var adr := idx;
        var tDiff := i * interval;
        // a row that does not fit below max_addr moves the cursor (Jump)
        var need := entrySize * numActive;
        if maxAddr - need < idx {
          idx := start + SIZE_CLUSTER;
          if idx > LP_END {
            idx := lpStart;
          }
        }
        // one value per active channel from the cursor
        var vals, next := ReadRow(m, idx);
        if vals.Err? {
          return Fail(vals.error);
        }
        idx := next;
        var dataSet := Reading(adr, status, sTime, tDiff, vals.value);
        PrependTwice(added, [dataSet], RowsFrom(m, L, start, maxAddr, status, sTime, idx, i + 1, lpsnint));
        lp := lp + [dataSet];
        added := added + [dataSet];
        i := i + 1;
      }
      PrependAll(added);
      return Pass;
    }

    /** The channel loop of one reading: the values and the cursor after them. */
    method ReadRow(m: Store, pos: int) returns (r: Result<seq<string>>, next: int)
      ensures r == RowValues(m, Layout(), pos, numActive)
      ensures r.Ok? ==> next == pos + Need(Layout())
    {
      var idx := pos;
      var vals: seq<string> := [];
      PrependNil(RowValues(m, Layout(), pos, numActive));
      var ch := 0;
      while ch < numActive
        invariant 0 <= ch <= numActive
        invariant idx == pos + ch * entrySize
        invariant RowValues(m, Layout(), pos, numActive) == Prepend(vals, RowValues(m, Layout(), idx, numActive - ch))
      {
        var v := ReadValue(m, idx);
        if v.Err? {
          return Err(v.error), idx;
        }
        var p := decimal;
        var text := Take(v.value, p) + "." + Drop(v.value, p);
        PrependTwice(vals, [text], RowValues(m, Layout(), idx + entrySize, numActive - ch - 1));
        vals := vals + [text];
        MulStep(ch, entrySize);
        idx := idx + entrySize;
        ch := ch + 1;
      }
      PrependAll(vals);
      return Ok(vals), idx;
    }

    /** The byte loop of one channel value: entry-size texts concatenated. */
    method ReadValue(m: Store, pos: int) returns (r: Result<string>)
      ensures r == ValueText(m, pos, entrySize)
    {
      var s := "";
      var idx := pos;
      PrependNil(ValueText(m, pos, entrySize));
      var k := 0;
      while k < entrySize
        invariant 0 <= k <= entrySize
        invariant idx == pos + k
        invariant ValueText(m, pos, entrySize) == Prepend(s, ValueText(m, idx, entrySize - k))
      {
        if idx !in m {
          return Err(KeyMissing(idx));
        }
        PrependTwice(s, m[idx], ValueText(m, idx + 1, entrySize - k - 1));
        s := s + m[idx];
        idx := idx + 1;
        k := k + 1;
      }
      assert s + [] == s;
      return Ok(s);
    }
  }

  /** One step of a loop over per-cluster results, as an invariant of that loop. */
  lemma ConcatStep(rs: seq<Result<seq<Reading>>>, k: nat, added: seq<Reading>)
    requires k < |rs|
    requires Concat(rs) == Prepend(added, Concat(rs[k..]))
    ensures rs[k].Err? ==> Concat(rs) == Err(rs[k].error)
    ensures rs[k].Ok? ==> Concat(rs) == Prepend(added + rs[k].value, Concat(rs[k + 1..]))
  {
    assert rs[k..][0] == rs[k] && rs[k..][1..] == rs[k + 1..];
    if rs[k].Ok? {
      PrependTwice(added, rs[k].value, Concat(rs[k + 1..]));
    }
  }

  /** Concatenating two lists of results one after the other. */
  lemma {:induction false} ConcatAppend(a: seq<Result<seq<Reading>>>, b: seq<Result<seq<Reading>>>)
    ensures Concat(a).Err? ==> Concat(a + b) == Concat(a)
    ensures Concat(a).Ok? ==> Concat(a + b) == Prepend(Concat(a).value, Concat(b))
    decreases |a|
  {
    if a == [] {
      assert a + b == b;
      PrependNil(Concat(b));
    } else {
      assert (a + b)[0] == a[0] && (a + b)[1..] == a[1..] + b;
      ConcatAppend(a[1..], b);
      if a[0].Ok? && Concat(a[1..]).Ok? {
        PrependTwice(a[0].value, Concat(a[1..]).value, Concat(b));
      }
    }
  }

  /** Walking two lists of clusters one after the other: the run stops at the
      first list's failure, and otherwise the second list's readings follow. */
  lemma WalkAppend(m: Store, L: Layout, a: seq<int>, b: seq<int>)
    ensures Walk(m, L, a).Err? ==> Walk(m, L, a + b) == Walk(m, L, a)
    ensures Walk(m, L, a).Ok? ==> Walk(m, L, a + b) == Prepend(Walk(m, L, a).value, Walk(m, L, b))
  {
    ClusterResultsAppend(m, L, a, b);
    ConcatAppend(ClusterResults(m, L, a), ClusterResults(m, L, b));
  }
}
