# read_lp in Dafny

A model of `read_lp.py`, a script that rebuilds a utility meter's load profile from hex dumps of its three EEPROM chips. It covers:

- The text side: the per-line transform of `file2List` and the address map that `list2Map` builds from the dump lines.
- The `LP` object:
  - `__init__` decodes the channel selectors, the display and mode registers, the interval and the start of the log. It then hands every 512-byte cluster of the log, in order, to `add_data`.
  - `add_data` reads a cluster's date-stamp directory from its tail and walks the entry group of each date stamp. It appends one reading per interval to `self.lp`.
- The two small helpers `calcTimeStamp` and `dateStamp2Str`.

Modules:

- `Results` holds the shared datatypes:
  - `Option`;
  - `Failure`, one variant per exception the script lets escape;
  - `Result` and `Outcome`;
  - `Prepend`, which puts readings already produced in front of a result still to come.
- `HexText` models Python's `int(s, 16)`, `int(s)` and clamping slices on the short texts of a dump.
- `ByteStore` holds the address map `Store = map<int, string>` and its two reads: `m[a]` and `int(m[a], 16)`.
- `Dump` covers `file2List`'s line transform and `list2Map`, as the method `List2Map` proved against the function `Parse`.
- `Registers` holds:
  - the constants and digit tables;
  - the channel-selector loop as the recursive function `Selectors`;
  - the configuration decode `DecodeConfig`;
  - the cluster enumeration `ClusterStarts`.
- `Cluster` contains the functions that say what `add_data` appends: `Directory`, `Groups`, `GroupReadings`, `RowsFrom`, `RowValues`, `ValueText` and `ClusterReadings`. It also holds `Walk`, which applies `add_data` to a list of clusters, and the lemmas about them.
- `ReadLp` holds:
  - the class `LoadProfile`, with the fields of `LP`, and `Reconstruct`, the value of `self.lp` after `LP(m)`;
  - `LP(m)` as `new LoadProfile()` followed by `Init(m)`;
  - `Init`, which runs the loops of `__init__` by calling one method per loop level.

  Each of these methods is proved against the specification function of its level. In each loop the invariant has the shape `Spec(whole) == Prepend(done so far, Spec(rest))`.
- `Stamps` covers `calcTimeStamp` and `dateStamp2Str`.

Every uncaught exception ends the run. The model expresses each one as a `Failure`:

- a `KeyError` from `m[a]`;
- a `ValueError` from `int(..., 16)` outside the date-stamp `try` block;
- the `KeyError` from the label table `MESSGROESSE_MAP` in the channel loop's print;
- the `KeyError` from `N_DIGITS_ENER`, which has no keys 0 and 1.

The `ValueError` caught inside the date-stamp `try` block abandons the cluster. `add_data` then returns without appending anything.

The code, as written:

- Has no erased-cluster sentinel: a count byte of `0x55`, `0xAA` or `0xFF` is read as that many date stamps.
- Runs no BCD check on time-of-day or channel bytes. A time text that is not a date-time still makes `strptime` raise an uncaught `ValueError` once the group has a reading; that call is not modelled (see "## Left out").
- Reads a count of 0 as one date stamp at the usual place. It does not inherit the previous cluster's date.
- Inserts the decimal point `lp_decimal` characters from the left of the value text.
- Moves the cursor 4 bytes past the one-byte status. This is `SIZE_STATUS = 4`.
- Leaves 3 bytes per 4-byte date stamp when it computes `max_addr`.
- Moves the cursor when the next reading does not fit below `max_addr`:
  - Below the last cluster it goes to `start + 0x200`. Every later reading of the group is then read again from that same address, because the fit test still compares against this cluster's `max_addr`.
  - From the last first-chip cluster `0x7E00` that address is `0x8000`. The first chip holds only `0x8000` bytes, up to `0x7FFF`, and no cluster at `0x8000` is visited.
  - In the last cluster, `0x2FE00`, `start + 0x200` passes `LP_END`, so the cursor goes to `lp_start`. The later readings then follow one another from there, `Need` bytes apart, as long as they fit.

Lemmas state these behaviours.

## Model

| member | source | states |
|---|---|---|
| Dump.TagLine | read_lp.py:93 | defines one line of file2List: the chip prefix followed by the line's first 53 characters; TagLines states its shape |
| Dump.TagLines | read_lp.py:91-94 | file2List keeps one line per input line: the chip prefix, then exactly the line's first min(length, 53) characters |
| Dump.ChipLines | read_lp.py:348-350 | a line tagged with chip prefix 0, 1 or 2 is read by list2Map at the chip-local address plus chip * 0x10000 |
| Dump.ChipAddress | read_lp.py:93 | the same for one tagged line: the prefix digit becomes the fifth, most significant hex digit of the address |
| Dump.LineBase | read_lp.py:105 | defines int(line[:5], 16), the address of a line's first byte: the five characters without the spaces around them, or None when what remains is not a hex run; ChipAddress and BlankLine give its value |
| Dump.Field | read_lp.py:107-108 | defines line[6+3b : 8+3b], the text of byte b, with Python's clamping slice |
| Dump.LineFields | read_lp.py:106-109 | defines the 16 entries a line adds to the map; LineFieldsAt states them |
| Dump.Parse | read_lp.py:101-110 | defines list2Map as a fold over the lines, with BadLineAddress for the first line whose address field int() rejects; ParseOk, ParseKeys, ParseKeeps and ParseLastWriter state its properties |
| Dump.List2Map | read_lp.py:101-110 | the method's result is Parse of the lines: the map list2Map returns, or the ValueError of the first line whose address field is not hex |
| Dump.FillLine | read_lp.py:106-109 | the inner loop stores the 16 fields of a line at 16 consecutive addresses from the line's base, over the map built so far |
| Dump.FillStep | read_lp.py:108 | one pass of the inner loop adds exactly the next address of the line to the map |
| Dump.LineFieldsAt | read_lp.py:106-109 | a line with base a defines exactly the addresses a .. a+15, the b-th holding line[6+3b:8+3b] |
| Dump.ParseOk | read_lp.py:104-105 | list2Map succeeds if and only if int(line[:5], 16) is defined for every line, that is, the first five characters less the spaces around them are a non-empty hex run |
| Dump.BlankLine | read_lp.py:93-109 | a blank line such as "\n" or "\r\n" is accepted: tagged with chip prefix c it stands for address c, and its 16 byte texts are empty |
| Dump.ParseKeys | read_lp.py:104-109 | the keys of the map are exactly the addresses some line covers, plus those of the starting map |
| Dump.ParseKeeps | read_lp.py:104-109 | an address no line covers keeps its value |
| Dump.ParseLastWriter | read_lp.py:104-109 | byte b of line i is stored at base + b unless a later line covers that address again; later lines win |
| ByteStore.Lookup | read_lp.py:319-321 | defines m[a]: the text at a, or KeyMissing(a) when the dump does not define a |
| ByteStore.ReadHex | read_lp.py:123 | defines int(m[a], 16): KeyMissing when a is absent, NotHex when its text is not hex, else the value |
| HexText.IsDecimal | read_lp.py:239-241 | defines the test int(s) passes: a non-empty run of decimal digits; DateTextFields uses it |
| HexText.IsSpace | read_lp.py:105 | defines the characters int() skips around its digits: ASCII whitespace, 0x1C..0x1F and the Unicode spaces |
| HexText.AllSpace | read_lp.py:105 | defines a text made only of the characters int() skips |
| HexText.TrimLeft | read_lp.py:105 | drops exactly the leading spaces: the result is a suffix, everything dropped is a space, and it does not start with one |
| HexText.TrimRight | read_lp.py:105 | drops exactly the trailing spaces: the result is a prefix, everything dropped is a space, and it does not end with one |
| HexText.Strip | read_lp.py:105 | defines the text int() reads digits from: TrimLeft, then TrimRight |
| HexText.StripKeepsHex | read_lp.py:105 | a text that starts and ends with a hex digit is read as it stands |
| HexText.StripTrailing | read_lp.py:105 | one hex digit followed only by spaces is read as that digit |
| HexText.Take | read_lp.py:93 | defines Python's s[:n] for n >= 0, a clamping Slice |
| HexText.Drop | read_lp.py:323 | defines Python's s[n:] for n >= 0: empty once n passes the end |
| HexText.ParseHex | read_lp.py:105 | int(s, 16) is defined exactly when s is a non-empty run of hex digits, and its value is below 16 to the length of s |
| HexText.HexNat | read_lp.py:105 | the positional value of a hex digit string is below 16 to its length |
| HexText.DigitValue | read_lp.py:105 | a digit's value is below 16, and a decimal digit counts as itself |
| HexText.Slice | read_lp.py:108 | Python slicing clamps: the length is the clamped span and the k-th character is s[i+k] |
| HexText.TakeDrop | read_lp.py:323 | s[:p] + s[p:] gives s back for every p |
| HexText.LeadingDigit | read_lp.py:105 | a leading digit contributes its value times 16 to the number of digits after it |
| Registers.EregsDigits | read_lp.py:52-55 | defines N_DIGITS_EREGS: 8, 7, 6, 5 digits for codes 0..3 and nothing else |
| Registers.PwrDigits | read_lp.py:57-60 | defines N_DIGITS_PWR: 4, 3, 6, 5 digits for codes 0..3 and nothing else |
| Registers.EnerDigits | read_lp.py:62-63 | defines N_DIGITS_ENER: only codes 2 and 3, with 6 and 5 digits |
| Registers.QuantityLabel | read_lp.py:65-85 | defines the key set of MESSGROESSE_MAP; QuantityCodes states it |
| Registers.QuantityCodes | read_lp.py:65-85 | the label table knows exactly the codes 0x00..0x10, 0x20, 0x30, 0x40 and 0x80 |
| Registers.DisflgEE | read_lp.py:134 | defines disflg_ee, bits 7..6 of DISFLG; MaskEE and DisflgBitFields state it |
| Registers.DisflgDD | read_lp.py:136 | defines disflg_dd, bits 5..4 of DISFLG; MaskDD states it |
| Registers.DisflgCC | read_lp.py:138 | defines disflg_cc, bits 3..2 of DISFLG; MaskCC states it |
| Registers.LowBits | read_lp.py:141-143 | defines the & 0b11 of dploce_ddd and dplocd_ddd; MaskLow states it |
| Registers.ModeRegs | read_lp.py:146 | defines elpsmod_lpregs, bit 5 of ELPSMOD kept in place; MaskRegs states it |
| Registers.ModeEner | read_lp.py:147 | defines elpsmod_lpener, bit 4 of ELPSMOD kept in place; MaskEner states it |
| Registers.DisflgBitFields | read_lp.py:132-138 | the arithmetic used for the three display fields is the source's mask-and-shift on the DISFLG byte |
| Registers.ModeBitFields | read_lp.py:146-147 | the arithmetic used for the mode bits is the source's mask of ELPSMOD with 0b00100000 and 0b00010000 |
| Registers.MaskEE | read_lp.py:134 | (param & 0b11000000) >> 6 is the top two bits of the byte |
| Registers.MaskDD | read_lp.py:136 | (param & 0b00110000) >> 4 is bits 5..4 of the byte |
| Registers.MaskCC | read_lp.py:138 | (param & 0b00001100) >> 2 is bits 3..2 of the byte |
| Registers.MaskLow | read_lp.py:141-143 | v & 0b11 is the low two bits |
| Registers.MaskRegs | read_lp.py:146 | mode & 0b00100000 is bit 5 in place |
| Registers.MaskEner | read_lp.py:147 | mode & 0b00010000 is bit 4 in place |
| Registers.EntrySize | read_lp.py:150 | (digits + 2 // 2) // 2 is ceil(digits / 2), two BCD digits per byte |
| Registers.EntryFormat | read_lp.py:145-165 | defines the layout of a reading from the mode bits, the digit tables and the decimal locations, or NoDigitTable for a missing key; FormatByMode states its cases |
| Registers.FormatByMode | read_lp.py:145-165 | the three layouts and their widths and decimal sources; the format fails exactly in energy-advance mode with both the cumulative and the energy code below 2, which N_DIGITS_ENER lacks |
| Registers.StartBase | read_lp.py:178 | defines START_DATA + EUISIZE * SIZE_CLUSTER, lp_start before the chip correction |
| Registers.LogStart | read_lp.py:188-190 | defines the chip correction: lp_start + 0x8000 at or above 0x7FFF, unchanged below |
| Registers.ClusterCount | read_lp.py:184 | defines len(range(lo, hi, 0x200)): 0 when lo >= hi, else ceil((hi - lo) / 0x200) |
| Registers.ClusterRange | read_lp.py:184 | defines range(lo, hi, 0x200); ClusterRangeStep and ClusterRangeMembers state it |
| Registers.LogClusters | read_lp.py:180-195 | defines the clusters the two branches of __init__ visit from the corrected lp_start |
| Registers.ClusterStarts | read_lp.py:176-195 | defines the same from the uncorrected start; ClusterStartsMembers and ClusterStartsOrder state it |
| Registers.ClusterRangeStep | read_lp.py:184 | range(lo, hi, 0x200) is lo followed by range(lo + 0x200, hi) when lo < hi, and empty otherwise |
| Registers.ClusterRangeMembers | read_lp.py:184-194 | an address is visited by range(lo, hi, 0x200) exactly when it lies in [lo, hi) at a multiple of 0x200 from lo |
| Registers.ClusterStartsMembers | read_lp.py:176-195 | starting in the first chip, the clusters visited are those up to 0x7FFF and then those in [0x10000, 0x2FFFF); starting later, those from lp_start + 0x8000 on |
| Registers.ClusterStartsOrder | read_lp.py:176-195 | for every one-byte EUISIZE the clusters are visited in strictly ascending order, starting at the corrected lp_start |
| Registers.Selectors | read_lp.py:122-125 | defines the channel loop from selector k on: the codes read, or the first KeyError, ValueError or unknown label; SelectorsStep, SelectorsOk and SelectorsCodes state it |
| Registers.ActiveCount | read_lp.py:121-127 | defines num_of_active_channels as the loop counts it; ActiveCountSnoc and ActiveCountIsNonZero state it |
| Registers.SelectorsStep | read_lp.py:122-125 | one pass of the channel loop: a missing or non-hex register or a code without a label ends the run, otherwise the code is appended |
| Registers.SelectorsOk | read_lp.py:122-125 | the channel loop completes if and only if every selector register holds a hex code the label table knows |
| Registers.SelectorsCodes | read_lp.py:122-123 | a completed channel loop yields one code per selector register, in register order, as read |
| Registers.ActiveCountSnoc | read_lp.py:126-127 | appending a code adds one active channel exactly when the code is non-zero |
| Registers.ActiveCountIsNonZero | read_lp.py:126-127 | num_of_active_channels is the number of selector positions holding a non-zero code |
| Registers.DecodeRegisters | read_lp.py:130-178 | the register reads after the channel loop, in source order, each failing with the first missing or non-hex register or missing digit table; the selectors and their active count pass through unchanged |
| Registers.DecodeConfig | read_lp.py:118-178 | defines the configuration part of __init__: the channel loop, then the register reads; ConfigFields states its fields |
| Registers.ConfigFields | read_lp.py:118-178 | a decoded configuration holds the selector codes as read and their active count, and every register field RegisterFieldsHold lists |
| Registers.RegisterFieldsHold | read_lp.py:130-178 | defines the register fields of a configuration: DISFLG, DPLOCE, DPLOCD and ELPSMOD hex; the display fields of DISFLG; the low two bits of DPLOCE and DPLOCD; bits 5 and 4 of ELPSMOD; the format the digit tables give for them; ELGINT and EUISIZE as read; the chip-corrected lp_start |
| Registers.RegisterFields | read_lp.py:130-178 | after a successful register decode, every field RegisterFieldsHold lists holds |
| Cluster.CountAddr | read_lp.py:225 | defines start + 0x200 - 2, the address of the count byte lpnrday |
| Cluster.StampAddr | read_lp.py:235-238 | defines start + 0x200 - 2 - 4(i + 1), the address of date stamp i, below the count byte |
| Cluster.Stamps | read_lp.py:225-242 | defines the whole date-stamp loop of a cluster with its try: the count, then Directory from position 0 |
| Cluster.StampCount | read_lp.py:225-229 | defines lpnrday: the hex count byte two bytes before the cluster end, with 0 read as 1 |
| Cluster.StampAt | read_lp.py:233-242 | defines one date stamp: KeyError for a missing byte, None for the ValueError of a non-hex offset or a non-decimal field, else the stamp |
| Cluster.Directory | read_lp.py:231-246 | defines the date-stamp loop from position i; DirectoryShape, StampsDecoded and DirectoryAborts state it |
| Cluster.MaxAddr | read_lp.py:252-254 | defines max_addr: 3 bytes taken off per date stamp, plus the unused and count bytes |
| Cluster.Need | read_lp.py:310 | defines the bytes one reading takes: entry size times active channels |
| Cluster.Jump | read_lp.py:308-314 | defines the cursor a reading is read from; ContiguousRows, RepeatedJump and WrapJump state its three cases |
| Cluster.InsertPoint | read_lp.py:322-323 | defines s[:p] + '.' + s[p:]; PointRoundTrip states it |
| Cluster.ValueText | read_lp.py:319-321 | defines the byte loop of one value; ValueTextPairs states it |
| Cluster.RowValues | read_lp.py:317-323 | defines the channel loop of one reading; RowValuesShape states it |
| Cluster.RowsFrom | read_lp.py:298-324 | defines the interval loop from reading i with the cursor at idx; RowsShape, ContiguousRows, RowsSplit, RepeatedJump and WrapJump state it |
| Cluster.IsLogEntry | read_lp.py:264 | defines lpsnint & 128, the log-entry test |
| Cluster.GroupAddr | read_lp.py:260 | defines start + offset * 2, where a date stamp's group starts |
| Cluster.StampText | read_lp.py:286-287 | defines s_time: '20', the date fields, then the hour, minute and second texts |
| Cluster.GroupReadings | read_lp.py:259-297 | defines the loop body for one date stamp; LogHeaderSkipped and GroupShape state it |
| Cluster.Groups | read_lp.py:257-297 | defines the loop over the date stamps from position j |
| Cluster.ClusterReadings | read_lp.py:221-324 | defines what add_data appends for one cluster; ClusterAbort states its abandon case |
| Cluster.Walk | read_lp.py:184-195 | defines add_data applied to a list of clusters in order, stopping at the first exception; WalkAppend states it |
| Cluster.DirectoryShape | read_lp.py:233-242 | a complete directory holds one date stamp per position, each decoded from its own four bytes |
| Cluster.StampsDecoded | read_lp.py:225-242 | a count byte of 0 gives exactly one date stamp and any other count c exactly c, the k-th decoded from start + 506 - 4k |
| Cluster.DirectoryAborts | read_lp.py:232-246 | the directory is abandoned if and only if some date stamp is invalid and every one before it decoded |
| Cluster.ClusterAbort | read_lp.py:243-246 | such a cluster adds nothing to the profile and raises nothing |
| Cluster.LogHeaderSkipped | read_lp.py:263-268 | a header with bit 7 set yields no reading, and the walk goes on with the next date stamp |
| Cluster.RowValuesShape | read_lp.py:317-323 | a reading has one value per active channel, the c-th read entry-size bytes after the (c-1)-th, each with its decimal point inserted |
| Cluster.RowsShape | read_lp.py:298-324 | a group of n readings has them in order with the group's status and date-time text, the k-th k intervals after the first, the first at the cursor before any jump |
| Cluster.GroupShape | read_lp.py:257-297 | a group whose header n has bit 7 clear gives exactly n readings; the status is the byte after the time, and the first reading is recorded 8 bytes after the header because the one-byte status advances the cursor by 4 |
| Cluster.ContiguousRows | read_lp.py:308-321 | while every row fits below max_addr, the readings are read back to back, Need bytes apart |
| Cluster.RepeatedJump | read_lp.py:311-314 | once a row does not fit and start + 0x200 is at most LP_END, every later reading of the group reads the same bytes at start + 0x200 |
| Cluster.WrapJump | read_lp.py:311-314 | in the last cluster, where start + 0x200 passes LP_END, the reading that does not fit is read from lp_start and the later readings follow it Need bytes apart while they fit |
| Cluster.RowsSplit | read_lp.py:298-324 | the readings of a group are the rows up to any row j that still fits, followed by the readings from row j with the cursor j - i rows on; an exception in the first part is the result |
| Cluster.RowStep | read_lp.py:308-323 | a reading whose row fits is read at the cursor, and the next one Need bytes further on |
| Cluster.RowMayOverlapDirectory | read_lp.py:252-254 | max_addr leaves 3 bytes per 4-byte date stamp, so a row can be accepted whose last byte lies inside the date-stamp directory |
| Cluster.ValueTextPairs | read_lp.py:319-321 | when every byte is a two-character text, a value of n bytes is 2n characters, byte k at positions 2k and 2k+1 |
| Cluster.PointRoundTrip | read_lp.py:322-323 | inserting the decimal point adds exactly one '.' at the clamped position, and removing it gives the text back |
| Cluster.ChannelValueText | read_lp.py:317-323 | a channel value over two-character bytes is 2w+1 characters, and without its '.' it is the w byte texts in order |
| ReadLp.Reconstruct | read_lp.py:115-195 | defines self.lp after LP(m): the configuration, then the walk over its clusters; Init is proved against it |
| ReadLp.ReconstructVisits | read_lp.py:176-195 | the clusters walked are exactly the enumeration from EUISIZE that ClusterStartsOrder and ClusterStartsMembers describe |
| ReadLp.WalkAppend | read_lp.py:184-187 | walking two cluster lists one after the other is the second walk after the first, and a failure in the first ends it |
| ReadLp.LoadProfile.constructor | read_lp.py:116-121 | the object starts with an empty profile, no selectors and no active channel |
| ReadLp.LoadProfile.Init | read_lp.py:115-195 | LP(m) completes if and only if Reconstruct(m) succeeds, raises exactly its exception otherwise, and on success holds the decoded configuration and self.lp equal to the reconstruction |
| ReadLp.LoadProfile.ReadConfig | read_lp.py:118-178 | the register part of __init__ completes exactly when DecodeConfig succeeds, and leaves the fields equal to the decoded configuration |
| ReadLp.LoadProfile.ReadChannels | read_lp.py:119-127 | the channel loop completes exactly when Selectors does, leaving elpch equal to the codes read and num_of_active_channels equal to the number of non-zero ones |
| ReadLp.LoadProfile.SetDisplay | read_lp.py:132-143 | the display fields and decimal locations take the decoded values |
| ReadLp.LoadProfile.SetFormat | read_lp.py:146-165 | the mode bits, layout, entry size and decimal position take the decoded values |
| ReadLp.LoadProfile.SetLog | read_lp.py:173-190 | the interval, EUISIZE and the corrected lp_start take the decoded values |
| ReadLp.LoadProfile.AddLog | read_lp.py:180-195 | the cluster loops append the walk over the clusters from lp_start, in order, or stop at the first exception |
| ReadLp.LoadProfile.AddClusters | read_lp.py:184-187 | one range loop appends the readings of its clusters one after another, or stops at the first exception |
| ReadLp.LoadProfile.AddData | read_lp.py:221-324 | add_data completes exactly when ClusterReadings succeeds and then appends exactly its readings; otherwise it raises the exception ClusterReadings gives, and the contract says nothing of what was appended before it |
| ReadLp.LoadProfile.ReadDateStamps | read_lp.py:231-246 | the date-stamp loop gives the directory: a KeyError, None for the ValueError that abandons the cluster, or the stamps in order |
| ReadLp.LoadProfile.AddGroup | read_lp.py:259-297 | the body for one date stamp appends exactly GroupReadings: nothing for a log entry, else the group's readings |
| ReadLp.LoadProfile.ReadRows | read_lp.py:298-324 | the interval loop appends exactly RowsFrom from the cursor after the status |
| ReadLp.LoadProfile.ReadRow | read_lp.py:317-323 | the channel loop of one reading gives RowValues, the cursor advanced by entry size times active channels |
| ReadLp.LoadProfile.ReadValue | read_lp.py:319-321 | the byte loop concatenates entry-size byte texts from the cursor, or raises at the first absent address |
| Stamps.CalcTimeStamp | read_lp.py:199-212 | seconds kept; hours and minutes add up to the original plus the interval, less one day at most; minutes wrapped into 0..59 when they pass 59 and untouched otherwise |
| Stamps.ClockArithmetic | read_lp.py:204-210 | for minutes 0..59 and a non-negative interval, the result is the sum split into hours and minutes, less one day exactly when the hours exceed 24 |
| Stamps.NoWrapWithinHour | read_lp.py:204-210 | for a valid time and an interval of at most an hour the sum is kept whole, with the hour at most 24 |
| Stamps.MidnightIsHour24 | read_lp.py:209-210 | example of ClockArithmetic: 23:30 plus 30 minutes is 24:00, and 24:30 plus 30 minutes is 01:00 |
| Stamps.OneDayOnly | read_lp.py:209-210 | example of ClockArithmetic: only one day is taken off, so 49:00 plus an hour is 26:00 |
| Stamps.DateText | read_lp.py:215-218 | the date text has the three field lengths plus two separators |
| Stamps.DateTextFields | read_lp.py:215-218 | splitting the text of a stamp with decimal fields at '/' gives the year, month and day back |

## Left out

- Reading the dump files (`open`, `readlines` in file2List and the `__main__` block), `list2file`, `writeCsv`, `__str__` and every `print`: they are I/O. The model starts from the lines that were read and ends with `self.lp`.
- The labels of `MESSGROESSE_MAP` are used only as a lookup. Only the `KeyError` of an unknown code is modelled, because a label is never stored.
- `datetime.strptime` and `timedelta`: a reading keeps the 14-character date-time text and its minute offset `i * elgint`. An impossible date or time that `strptime` would reject with a `ValueError` is not modelled.
- Dump.LineBase, Dump.ParseOk: the spaces around a line address are skipped as `int()` skips them. A sign, an underscore between digits, a `0x` prefix and non-ASCII digits, which `int()` also accepts, are not modelled; such a line is read as `BadLineAddress`.
- ByteStore.ReadHex, Cluster.StampAt, HexText.IsDecimal: the byte texts are read without skipping spaces, and as plain digit runs only. `int()` would read a one-digit text padded with a space, such as `" 5"` or `"5\n"`, as that digit; the model reads it as not a number. A field of a well-formed dump line is two digits, so this only matters for damaged lines.
- ReadLp.LoadProfile.Init: when the run ends with an exception, the contract says nothing about the partly filled `self.lp` and fields. The exception ends the script.
- Registers.DecodeRegisters: `ELPSMOD` is read twice in the source and once here. Both reads see the same map entry. `ReadConfig` calls this function for the straight-line register reads instead of repeating them as statements, and the setters copy its fields into the object.
- ReadLp.LoadProfile.SetLog: the 0x8000 correction of `lp_start` is computed with the other register reads, before the branch that chooses the cluster loops. The branch tests the corrected value. It gives the same result because the correction only applies at or above 0x7FFF.
- `calcTimeStamp` is never called by the script. It is modelled as a function on its own.
