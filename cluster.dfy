/** What LP.add_data reads out of one 512-byte cluster: the date-stamp
    directory in the cluster's last bytes, and for every date stamp an entry
    group of header, time, status and channel values. The functions here are
    the specification the methods of LoadProfile are proved against. */
module Cluster {

  import opened Results
  import opened HexText
  import opened ByteStore
  import opened Registers

  /** One directory entry: offset of the entry group in 16-bit words, and the
      date as year, month and day texts. */
  datatype DateStamp = DateStamp(offset: nat, yy: string, mm: string, dd: string)

  /** One dataSet of self.lp: status byte, cursor address, the 14-character
      date-time text, minutes to add to it, and one text per active channel. */
  datatype Reading = Reading(adr: int, status: nat, stamp: string, minutes: int, values: seq<string>)

  /** The fields of LP that add_data reads. */
  datatype Layout = Layout(channels: nat, entrySize: nat, decimal: nat, interval: nat, lpStart: int)

  /** start + SIZE_CLUSTER - 2: the number of date stamps. */
  function CountAddr(start: int): int
  {
    start + SIZE_CLUSTER - 2
  }

  /** Date stamp i lies 4 * (i + 1) bytes below the count. */
  function StampAddr(start: int, i: nat): int
  {
    start + SIZE_CLUSTER - 2 - 4 * (i + 1)
  }

  /** lpnrday, where 0 stands for one date stamp. */
  function StampCount(m: Store, start: int): Result<nat>
  {
    var n :- ReadHex(m, CountAddr(start));
    Ok(if n == 0 then 1 else n)
  }

  /** One pass of the try block: a missing byte escapes as KeyError; an offset
      that is not hex or a year, month or day that is not decimal is the
      ValueError that abandons the cluster (None). */
  function StampAt(m: Store, a: int): Result<Option<DateStamp>>
  {
    if a !in m then Err(KeyMissing(a))
    else match ParseHex(m[a])
      case None => Ok(None)
      case Some(oo) =>
        if a + 1 !in m then Err(KeyMissing(a + 1))
        else if a + 2 !in m then Err(KeyMissing(a + 2))
        else if a + 3 !in m then Err(KeyMissing(a + 3))
        else if IsDecimal(m[a + 1]) && IsDecimal(m[a + 2]) && IsDecimal(m[a + 3]) then
          Ok(Some(DateStamp(oo, m[a + 1], m[a + 2], m[a + 3])))
        else Ok(None)
  }

  /** Date stamps i .. n-1 of the cluster at start, or None once one is invalid. */
  function Directory(m: Store, start: int, i: nat, n: nat): Result<Option<seq<DateStamp>>>
    decreases n - i
  {
    if i >= n then Ok(Some([]))
    else
      var s :- StampAt(m, StampAddr(start, i));
      match s
      case None => Ok(None)
      case Some(d) =>
        var rest :- Directory(m, start, i + 1, n);
        match rest
        case None => Ok(None)
        case Some(ds) => Ok(Some([d] + ds))
  }

  /** Puts date stamps already decoded in front of a directory still to come. */
  function PrependStamps(ds: seq<DateStamp>, r: Result<Option<seq<DateStamp>>>): Result<Option<seq<DateStamp>>>
  {
    match r
    case Err(e) => Err(e)
    case Ok(None) => Ok(None)
    case Ok(Some(rest)) => Ok(Some(ds + rest))
  }

  lemma PrependStampsNil(r: Result<Option<seq<DateStamp>>>)
    ensures PrependStamps([], r) == r
  {
    if r.Ok? && r.value.Some? {
      assert [] + r.value.value == r.value.value;
    }
  }

  lemma PrependStampsTwice(xs: seq<DateStamp>, ys: seq<DateStamp>, r: Result<Option<seq<DateStamp>>>)
    ensures PrependStamps(xs, PrependStamps(ys, r)) == PrependStamps(xs + ys, r)
  {
    if r.Ok? && r.value.Some? {
      assert xs + (ys + r.value.value) == (xs + ys) + r.value.value;
    }
  }

  /** The whole directory of the cluster at start. */
  function Stamps(m: Store, start: int): Result<Option<seq<DateStamp>>>
  {
    var count :- StampCount(m, start);
    Directory(m, start, 0, count)
  }

  /** max_addr: the cluster end less the unused byte, the count byte and
      SIZE_DATE_STAMP bytes per date stamp. */
  function MaxAddr(start: int, count: nat): int
  {
    start + SIZE_CLUSTER - (SIZE_UNUSED_BYTE_EOC + SIZE_LPNRDAY + SIZE_DATE_STAMP * count)
  }

  /** Bytes of one reading: entry size times active channels. */
  function Need(L: Layout): nat
  {
    L.entrySize * L.channels
  }

  /** The cursor a reading's values are read from: unchanged while the row
      fits below max_addr, else the next cluster, else lp_start past LP_END. */
  function Jump(L: Layout, start: int, maxAddr: int, idx: int): int
  {
    if maxAddr - Need(L) < idx then
      (if start + SIZE_CLUSTER > LP_END then L.lpStart else start + SIZE_CLUSTER)
    else idx
  }

  /** s[:p] + '.' + s[p:]. */
  function InsertPoint(s: string, p: nat): string
  {
    Take(s, p) + "." + Drop(s, p)
  }

  /** The concatenated texts of the n bytes from pos. */
  function ValueText(m: Store, pos: int, n: nat): Result<string>
    decreases n
  {
    if n == 0 then Ok([])
    else
      var t :- Lookup(m, pos);
      Prepend(t, ValueText(m, pos + 1, n - 1))
  }

  /** The values of k channels read from pos on, each with its decimal point. */
  function RowValues(m: Store, L: Layout, pos: int, k: nat): Result<seq<string>>
    decreases k
  {
    if k == 0 then Ok([])
    else
      var v :- ValueText(m, pos, L.entrySize);
      Prepend([InsertPoint(v, L.decimal)], RowValues(m, L, pos + L.entrySize, k - 1))
  }

  /** Readings i .. n-1 of an entry group, the cursor standing at idx. */
  function RowsFrom(m: Store, L: Layout, start: int, maxAddr: int, status: nat, stamp: string,
                    idx: int, i: nat, n: nat): Result<seq<Reading>>
    decreases n - i
  {
    if i >= n then Ok([])
    else
      var pos := Jump(L, start, maxAddr, idx);
      var vals :- RowValues(m, L, pos, L.channels);
      Prepend([Reading(idx, status, stamp, i * L.interval, vals)],
              RowsFrom(m, L, start, maxAddr, status, stamp, pos + Need(L), i + 1, n))
  }

  /** lpsnint & 128: the entry group is a log entry, not load-profile data. */
  predicate IsLogEntry(header: nat)
  {
    header / 128 % 2 == 1
  }

  /** Address of the entry group a date stamp points to. */
  function GroupAddr(start: int, d: DateStamp): int
  {
    start + d.offset * 2
  }

  /** The 14-character text strptime is given: "20", date, then time texts. */
  function StampText(d: DateStamp, hh: string, mi: string, ss: string): string
  {
    "20" + d.yy + d.mm + d.dd + hh + mi + ss
  }

  /** The readings of the entry group of one date stamp. */
  function GroupReadings(m: Store, L: Layout, start: int, maxAddr: int, d: DateStamp): Result<seq<Reading>>
  {
    var g := GroupAddr(start, d);
    var n :- ReadHex(m, g);
    if IsLogEntry(n) then Ok([])
    else
      var hh :- Lookup(m, g + SIZE_LPSNINT);
      var mi :- Lookup(m, g + SIZE_LPSNINT + 1);
      var ss :- Lookup(m, g + SIZE_LPSNINT + 2);
      var status :- ReadHex(m, g + SIZE_LPSNINT + SIZE_TIME_STAMP);
      RowsFrom(m, L, start, maxAddr, status, StampText(d, hh, mi, ss),
               g + SIZE_LPSNINT + SIZE_TIME_STAMP + SIZE_STATUS, 0, n)
  }

  /** The readings of date stamps j .. |ds|-1, in directory order. */
  function Groups(m: Store, L: Layout, start: int, maxAddr: int, ds: seq<DateStamp>, j: nat): Result<seq<Reading>>
    decreases |ds| - j
  {
    if j >= |ds| then Ok([])
    else
      var rs :- GroupReadings(m, L, start, maxAddr, ds[j]);
      Prepend(rs, Groups(m, L, start, maxAddr, ds, j + 1))
  }

  /** What add_data(m, start) appends to self.lp. */
  function ClusterReadings(m: Store, L: Layout, start: int): Result<seq<Reading>>
  {
    var count :- StampCount(m, start);
    var dir :- Directory(m, start, 0, count);
    match dir
    case None => Ok([])
    case Some(ds) => Groups(m, L, start, MaxAddr(start, count), ds, 0)
  }

  /** What a sequence of add_data calls appends, one cluster after another. */
  function Walk(m: Store, L: Layout, starts: seq<int>): Result<seq<Reading>>
  {
    Concat(ClusterResults(m, L, starts))
  }

  /** add_data's outcome for each of the clusters at starts. */
  function ClusterResults(m: Store, L: Layout, starts: seq<int>): (rs: seq<Result<seq<Reading>>>)
    ensures |rs| == |starts|
    decreases |starts|
  {
    if starts == [] then [] else [ClusterReadings(m, L, starts[0])] + ClusterResults(m, L, starts[1..])
  }

  lemma {:induction false} ClusterResultsAt(m: Store, L: Layout, starts: seq<int>, k: nat)
    requires k < |starts|
    ensures ClusterResults(m, L, starts)[k] == ClusterReadings(m, L, starts[k])
    decreases k
  {
    if k > 0 {
      ClusterResultsAt(m, L, starts[1..], k - 1);
    }
  }

  lemma {:induction false} ClusterResultsAppend(m: Store, L: Layout, a: seq<int>, b: seq<int>)
    ensures ClusterResults(m, L, a + b) == ClusterResults(m, L, a) + ClusterResults(m, L, b)
    decreases |a|
  {
    if a == [] {
      assert a + b == b;
    } else {
      assert (a + b)[0] == a[0] && (a + b)[1..] == a[1..] + b;
      ClusterResultsAppend(m, L, a[1..], b);
    }
  }

  /** The readings of successive add_data calls appended in order; the first
      failing call ends the run with its failure. */
  function Concat(rs: seq<Result<seq<Reading>>>): Result<seq<Reading>>
    decreases |rs|
  {
    if rs == [] then Ok([])
    else
      var x :- rs[0];
      Prepend(x, Concat(rs[1..]))
  }

  // ---------------------------------------------------------------------
  // The date-stamp directory

  /** Date stamp k of the cluster at start is present and valid. */
  predicate StampValid(m: Store, start: int, k: nat)
  {
    StampAt(m, StampAddr(start, k)).Ok? && StampAt(m, StampAddr(start, k)).value.Some?
  }

  /** A complete directory holds one date stamp per position, each decoded
      from its own four bytes. */
  lemma {:induction false} DirectoryShape(m: Store, start: int, i: nat, n: nat)
    requires Directory(m, start, i, n).Ok? && Directory(m, start, i, n).value.Some?
    ensures var ds := Directory(m, start, i, n).value.value;
      && |ds| == (if i < n then n - i else 0)
      && forall k :: 0 <= k < |ds| ==> StampAt(m, StampAddr(start, i + k)) == Ok(Some(ds[k]))
    decreases n - i
  {
    if i < n {
      DirectoryShape(m, start, i + 1, n);
    }
  }

  /** A count byte of 0 yields exactly one date stamp, any other count c
      exactly c, decoded from start + 506 - 4k for the k-th. */
  lemma StampsDecoded(m: Store, start: int)
    requires Stamps(m, start).Ok? && Stamps(m, start).value.Some?
    ensures var ds := Stamps(m, start).value.value;
      var raw := ReadHex(m, CountAddr(start));
      && raw.Ok?
      && |ds| == (if raw.value == 0 then 1 else raw.value)
      && forall k :: 0 <= k < |ds| ==> StampAt(m, start + 506 - 4 * k) == Ok(Some(ds[k]))
  {
    var count := StampCount(m, start).value;
    DirectoryShape(m, start, 0, count);
  }

  /** The directory is abandoned exactly when some date stamp is invalid and
      every one before it decoded. */
  lemma {:induction false} DirectoryAborts(m: Store, start: int, i: nat, n: nat)
    ensures Directory(m, start, i, n) == Ok(None) <==>
      exists j :: i <= j < n && StampAt(m, StampAddr(start, j)) == Ok(None) &&
        forall k :: i <= k < j ==> StampValid(m, start, k)
    decreases n - i
  {
    if i < n {
      DirectoryAborts(m, start, i + 1, n);
      if StampValid(m, start, i) {
        if exists j :: i + 1 <= j < n && StampAt(m, StampAddr(start, j)) == Ok(None) &&
             forall k :: i + 1 <= k < j ==> StampValid(m, start, k) {
          var j :| i + 1 <= j < n && StampAt(m, StampAddr(start, j)) == Ok(None) &&
            forall k :: i + 1 <= k < j ==> StampValid(m, start, k);
          assert forall k :: i <= k < j ==> StampValid(m, start, k);
        }
      }
    }
  }

  /** A cluster whose directory holds an invalid date stamp before any
      missing byte adds nothing to the profile. */
  lemma ClusterAbort(m: Store, L: Layout, start: int, count: nat, j: nat)
    requires StampCount(m, start) == Ok(count)
    requires j < count && StampAt(m, StampAddr(start, j)) == Ok(None)
    requires forall k :: 0 <= k < j ==> StampValid(m, start, k)
    ensures ClusterReadings(m, L, start) == Ok([])
  {
    DirectoryAborts(m, start, 0, count);
  }

  // ---------------------------------------------------------------------
  // Entry groups

  /** A header with bit 7 set yields no reading, and the walk goes on with
      the next date stamp. */
  lemma LogHeaderSkipped(m: Store, L: Layout, start: int, maxAddr: int, ds: seq<DateStamp>, j: nat, header: nat)
    requires j < |ds|
    requires ReadHex(m, GroupAddr(start, ds[j])) == Ok(header) && IsLogEntry(header)
    ensures GroupReadings(m, L, start, maxAddr, ds[j]) == Ok([])
    ensures Groups(m, L, start, maxAddr, ds, j) == Groups(m, L, start, maxAddr, ds, j + 1)
  {
    PrependNil(Groups(m, L, start, maxAddr, ds, j + 1));
  }

  /** The address of the c-th value of a row starting at pos. */
  function Slot(pos: int, size: nat, c: nat): (a: int)
    ensures a >= pos
  {
    pos + c * size
  }

  lemma SlotStep(pos: int, size: nat, c: nat)
    requires c > 0
    ensures Slot(pos, size, c) == Slot(pos + size, size, c - 1)
  {
    MulStep(c - 1, size);
  }

  /** Every reading of a row has one value per active channel, the c-th read
      entrySize bytes after the (c-1)-th, with its decimal point inserted. */
  lemma {:induction false} RowValuesShape(m: Store, L: Layout, pos: int, k: nat)
    requires RowValues(m, L, pos, k).Ok?
    ensures var vs := RowValues(m, L, pos, k).value;
      && |vs| == k
      && forall c :: 0 <= c < k ==>
           ValueText(m, Slot(pos, L.entrySize, c), L.entrySize).Ok? &&
           vs[c] == InsertPoint(ValueText(m, Slot(pos, L.entrySize, c), L.entrySize).value, L.decimal)
    decreases k
  {
    if k > 0 {
      var e := L.entrySize;
      RowValuesShape(m, L, pos + e, k - 1);
      var vs := RowValues(m, L, pos, k).value;
      var rest := RowValues(m, L, pos + e, k - 1).value;
      assert vs == [InsertPoint(ValueText(m, pos, e).value, L.decimal)] + rest;
      assert Slot(pos, e, 0) == pos;
      hide ValueText, InsertPoint, Slot;
      forall c | 1 <= c < k
        ensures ValueText(m, Slot(pos, e, c), e).Ok? && vs[c] == InsertPoint(ValueText(m, Slot(pos, e, c), e).value, L.decimal)
      {
        SlotStep(pos, e, c);
        assert vs[c] == rest[c - 1];
      }
    }
  }

  /** n readings from idx on: all with the group's status and date-time text,
      the k-th at k intervals, each with one value per active channel, the
      first recorded at the cursor before any jump. */
  lemma {:induction false} RowsShape(m: Store, L: Layout, start: int, maxAddr: int, status: nat, stamp: string,
                                     idx: int, i: nat, n: nat)
    requires RowsFrom(m, L, start, maxAddr, status, stamp, idx, i, n).Ok?
    ensures var rs := RowsFrom(m, L, start, maxAddr, status, stamp, idx, i, n).value;
      && |rs| == (if i < n then n - i else 0)
      && (|rs| > 0 ==> rs[0].adr == idx)
      && forall k :: 0 <= k < |rs| ==>
           rs[k].status == status && rs[k].stamp == stamp &&
           rs[k].minutes == (i + k) * L.interval && |rs[k].values| == L.channels
    decreases n - i
  {
    if i < n {
      var pos := Jump(L, start, maxAddr, idx);
      RowValuesShape(m, L, pos, L.channels);
      RowsShape(m, L, start, maxAddr, status, stamp, pos + Need(L), i + 1, n);
    }
  }

  /** A group whose header n has bit 7 clear appends exactly n readings in
      order, all with the status byte read after the time, the k-th at k
      intervals after the group's time; the first is recorded eight bytes
      after the header, four of them taken up by the one-byte status. */
  lemma GroupShape(m: Store, L: Layout, start: int, maxAddr: int, d: DateStamp, n: nat)
    requires ReadHex(m, GroupAddr(start, d)) == Ok(n) && !IsLogEntry(n)
    requires GroupReadings(m, L, start, maxAddr, d).Ok?
    ensures var g := GroupAddr(start, d);
      var rs := GroupReadings(m, L, start, maxAddr, d).value;
      && g + 1 in m && g + 2 in m && g + 3 in m && ReadHex(m, g + 4).Ok?
      && |rs| == n
      && (n > 0 ==> rs[0].adr == g + 8)
      && forall k :: 0 <= k < n ==>
           rs[k].status == ReadHex(m, g + 4).value &&
           rs[k].stamp == StampText(d, m[g + 1], m[g + 2], m[g + 3]) &&
           rs[k].minutes == k * L.interval && |rs[k].values| == L.channels
  {
    var g := GroupAddr(start, d);
    RowsShape(m, L, start, maxAddr, ReadHex(m, g + 4).value, StampText(d, m[g + 1], m[g + 2], m[g + 3]), g + 8, 0, n);
  }

  /** While every row of a group fits below max_addr, the readings are read
      back to back, Need(L) bytes apart. */
  lemma {:induction false} ContiguousRows(m: Store, L: Layout, start: int, maxAddr: int, status: nat, stamp: string,
                                          idx: int, i: nat, n: nat)
    requires i <= n && idx + (n - i) * Need(L) <= maxAddr
    requires RowsFrom(m, L, start, maxAddr, status, stamp, idx, i, n).Ok?
    ensures var rs := RowsFrom(m, L, start, maxAddr, status, stamp, idx, i, n).value;
      forall k :: 0 <= k < |rs| ==>
        rs[k].adr == idx + k * Need(L) &&
        RowValues(m, L, idx + k * Need(L), L.channels) == Ok(rs[k].values)
    decreases n - i
  {
    if i < n {
      var need := Need(L);
      var left: nat := n - i - 1;
      MulStep(left, need);
      NatProduct(left, need);
      assert Jump(L, start, maxAddr, idx) == idx;
      ContiguousRows(m, L, start, maxAddr, status, stamp, idx + need, i + 1, n);
      var rs := RowsFrom(m, L, start, maxAddr, status, stamp, idx, i, n).value;
      var rest := RowsFrom(m, L, start, maxAddr, status, stamp, idx + need, i + 1, n).value;
      assert rs[1..] == rest;
      forall k | 1 <= k < |rs|
        ensures idx + k * need == idx + need + (k - 1) * need
      {
        MulStep(k - 1, need);
      }
    }
  }

  lemma NatProduct(k: nat, a: nat)
    ensures k * a >= 0
  {
  }

  lemma MulStep(k: int, a: int)
    ensures (k + 1) * a == k * a + a
  {
  }

  /** Once a row does not fit and the next cluster lies below LP_END, the
      cursor is set back to that cluster's start for every later reading of
      the group too: all of them read the same bytes at start + 0x200. */
  lemma {:induction false} RepeatedJump(m: Store, L: Layout, start: int, maxAddr: int, status: nat, stamp: string,
                                        idx: int, i: nat, n: nat)
    requires start + SIZE_CLUSTER <= LP_END
    requires maxAddr < start + SIZE_CLUSTER
    requires maxAddr - Need(L) < idx
    requires RowsFrom(m, L, start, maxAddr, status, stamp, idx, i, n).Ok?
    ensures var rs := RowsFrom(m, L, start, maxAddr, status, stamp, idx, i, n).value;
      && (forall k :: 0 <= k < |rs| ==> RowValues(m, L, start + SIZE_CLUSTER, L.channels) == Ok(rs[k].values))
      && (forall k :: 1 <= k < |rs| ==> rs[k].adr == start + SIZE_CLUSTER + Need(L))
    decreases n - i
  {
    if i < n {
      var next := start + SIZE_CLUSTER + Need(L);
      RepeatedJump(m, L, start, maxAddr, status, stamp, next, i + 1, n);
      if i + 1 < n {
        RowsShape(m, L, start, maxAddr, status, stamp, next, i + 1, n);
      }
    }
  }

  /** In the last cluster of the log start + 0x200 passes LP_END, so a row that
      does not fit sends the cursor to lp_start instead. The cursor then moves
      on normally: while the later rows fit below max_addr they are read back
      to back from lp_start, Need(L) bytes apart. */
  lemma {:induction false} WrapJump(m: Store, L: Layout, start: int, maxAddr: int, status: nat, stamp: string,
                                    idx: int, i: nat, n: nat)
    requires start + SIZE_CLUSTER > LP_END
    requires maxAddr - Need(L) < idx
    requires i < n && L.lpStart + (n - i) * Need(L) <= maxAddr
    requires RowsFrom(m, L, start, maxAddr, status, stamp, idx, i, n).Ok?
    ensures var rs := RowsFrom(m, L, start, maxAddr, status, stamp, idx, i, n).value;
      && |rs| >= 1 && rs[0].adr == idx
      && (forall k :: 0 <= k < |rs| ==>
            RowValues(m, L, L.lpStart + k * Need(L), L.channels) == Ok(rs[k].values))
      && (forall k :: 1 <= k < |rs| ==> rs[k].adr == L.lpStart + k * Need(L))
  {
    var need := Need(L);
    var next := L.lpStart + need;
    var left: nat := n - i - 1;
    MulStep(left, need);
    assert Jump(L, start, maxAddr, idx) == L.lpStart;
    ContiguousRows(m, L, start, maxAddr, status, stamp, next, i + 1, n);
    var rs := RowsFrom(m, L, start, maxAddr, status, stamp, idx, i, n).value;
    var rest := RowsFrom(m, L, start, maxAddr, status, stamp, next, i + 1, n).value;
    assert rs[1..] == rest;
    forall k | 1 <= k < |rs|
      ensures next + (k - 1) * need == L.lpStart + k * need
    {
      MulStep(k - 1, need);
    }
  }

  /** The readings of a group split at any row j up to which every row fits
      below max_addr: the rows i .. j-1 read back to back from idx (see
      ContiguousRows), followed by RowsFrom row j with the cursor j - i rows
      further on; an exception in the first part is the result. Taking j as the
      first row that does not fit separates the contiguous part of a group from
      the part after its first jump (RepeatedJump, WrapJump). */
  lemma {:induction false} RowsSplit(m: Store, L: Layout, start: int, maxAddr: int, status: nat, stamp: string,
                                     idx: int, i: nat, j: nat, n: nat)
    requires i <= j <= n && idx + (j - i) * Need(L) <= maxAddr
    ensures var pre := RowsFrom(m, L, start, maxAddr, status, stamp, idx, i, j);
      RowsFrom(m, L, start, maxAddr, status, stamp, idx, i, n) ==
        if pre.Ok? then Prepend(pre.value, RowsFrom(m, L, start, maxAddr, status, stamp, idx + (j - i) * Need(L), j, n))
        else pre
    decreases j - i
  {
    if i == j {
      assert idx + (j - i) * Need(L) == idx;
      assert RowsFrom(m, L, start, maxAddr, status, stamp, idx, i, j) == Ok([]);
      PrependNil(RowsFrom(m, L, start, maxAddr, status, stamp, idx, j, n));
    } else {
      var need := Need(L);
      var left: nat := j - i - 1;
      MulStep(left, need);
      NatProduct(left, need);
      var next := idx + need;
      assert next + left * need == idx + (j - i) * need;
      RowStep(m, L, start, maxAddr, status, stamp, idx, i, n);
      RowStep(m, L, start, maxAddr, status, stamp, idx, i, j);
      hide RowsFrom, RowValues, Jump;
      var vals := RowValues(m, L, idx, L.channels);
      var whole := RowsFrom(m, L, start, maxAddr, status, stamp, idx, i, n);
      var pre := RowsFrom(m, L, start, maxAddr, status, stamp, idx, i, j);
      var whole' := RowsFrom(m, L, start, maxAddr, status, stamp, next, i + 1, n);
      var pre' := RowsFrom(m, L, start, maxAddr, status, stamp, next, i + 1, j);
      var tail := RowsFrom(m, L, start, maxAddr, status, stamp, next + left * need, j, n);
      if vals.Ok? {
        var r := [Reading(idx, status, stamp, i * L.interval, vals.value)];
        RowsSplit(m, L, start, maxAddr, status, stamp, next, i + 1, j, n);
        if pre'.Ok? {
          PrependTwice(r, pre'.value, tail);
        }
      }
    }
  }

  /** One reading that fits below max_addr, taken off the front of RowsFrom. */
  lemma RowStep(m: Store, L: Layout, start: int, maxAddr: int, status: nat, stamp: string,
                idx: int, i: nat, n: nat)
    requires i < n && idx + Need(L) <= maxAddr
    ensures var vals := RowValues(m, L, idx, L.channels);
      RowsFrom(m, L, start, maxAddr, status, stamp, idx, i, n) ==
        if vals.Err? then Err(vals.error)
        else Prepend([Reading(idx, status, stamp, i * L.interval, vals.value)],
                     RowsFrom(m, L, start, maxAddr, status, stamp, idx + Need(L), i + 1, n))
  {
    assert Jump(L, start, maxAddr, idx) == idx;
  }

  /** max_addr leaves SIZE_DATE_STAMP = 3 bytes per date stamp although each
      takes 4, so with at least one date stamp a row may be accepted whose
      last byte lies inside the date-stamp directory. */
  lemma RowMayOverlapDirectory(L: Layout, start: int, count: nat)
    requires count >= 1 && Need(L) >= 1
    ensures var maxAddr := MaxAddr(start, count);
      var idx := maxAddr - Need(L);
      && Jump(L, start, maxAddr, idx) == idx
      && StampAddr(start, count - 1) <= idx + Need(L) - 1 < CountAddr(start)
  {
  }

  // ---------------------------------------------------------------------
  // Channel values

  /** The n bytes from pos are all present, each a two-character text. */
  predicate TwoCharBytes(m: Store, pos: int, n: nat)
  {
    forall a :: pos <= a < pos + n ==> a in m && |m[a]| == 2
  }

  /** With every byte a two-character text, a value of n bytes is their 2n
      characters, the k-th byte's pair at positions 2k and 2k + 1. */
  lemma {:induction false} ValueTextPairs(m: Store, pos: int, n: nat)
    requires TwoCharBytes(m, pos, n)
    ensures ValueText(m, pos, n).Ok?
    ensures var t := ValueText(m, pos, n).value;
      |t| == 2 * n && forall k :: 0 <= k < n ==> t[2 * k..2 * k + 2] == m[pos + k]
    decreases n
  {
    if n > 0 {
      assert pos in m;
      ValueTextPairs(m, pos + 1, n - 1);
      var t := ValueText(m, pos, n).value;
      var rest := ValueText(m, pos + 1, n - 1).value;
      assert t == m[pos] + rest;
      forall k | 0 <= k < n ensures t[2 * k..2 * k + 2] == m[pos + k] {
        if k > 0 {
          assert t[2 * k..2 * k + 2] == rest[2 * (k - 1)..2 * (k - 1) + 2];
        }
      }
    }
  }

  /** The decimal point: the text gains one character, a '.' at position p
      (or at the end when p is past it), and deleting it gives the digits back. */
  lemma PointRoundTrip(s: string, p: nat)
    ensures var r := InsertPoint(s, p);
      var q := if p < |s| then p else |s|;
      && |r| == |s| + 1
      && r[q] == '.'
      && r[..q] + r[q + 1..] == s
      && multiset(r) == multiset(s) + multiset{'.'}
  {
    var q := if p < |s| then p else |s|;
    var r := InsertPoint(s, p);
    TakeDrop(s, p);
    assert Take(s, p) == s[..q];
    assert r == s[..q] + "." + s[q..];
    assert r[..q] == s[..q];
    assert r[q + 1..] == s[q..];
    assert s == s[..q] + s[q..];
  }

  /** A channel value of entry size w over two-character bytes is 2w + 1
      characters long, and deleting its '.' gives back the w digit pairs. */
  lemma ChannelValueText(m: Store, L: Layout, pos: int)
    requires TwoCharBytes(m, pos, L.entrySize)
    ensures ValueText(m, pos, L.entrySize).Ok?
    ensures var t := ValueText(m, pos, L.entrySize).value;
      var r := InsertPoint(t, L.decimal);
      var q := if L.decimal < |t| then L.decimal else |t|;
      && |r| == 2 * L.entrySize + 1
      && r[..q] + r[q + 1..] == t
      && forall k :: 0 <= k < L.entrySize ==> t[2 * k..2 * k + 2] == m[pos + k]
  {
    ValueTextPairs(m, pos, L.entrySize);
    PointRoundTrip(ValueText(m, pos, L.entrySize).value, L.decimal);
  }
}
