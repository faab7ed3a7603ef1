# DAT bar-file parser, modelled in Dafny

This project models the core of `DATParser` in `data_parser_qmt.py`. The parser reads
one proprietary "DAT" bar file of a stock and turns it into a table of bars.

- The file is a sequence of 32-byte records with no header.
- Records are read in non-overlapping pairs: a price record, then a volume record.
- Each record is unpacked as eight unsigned 32-bit little-endian integers (`struct.unpack('<8I', ..)`).
- Each pair goes through four gates, in this order:
  1. the Unix-timestamp window on price field 2;
  2. a three-of-four plausibility vote on price fields 3–6, whose upper bound depends on the file's kind;
  3. the all-zero / negative test;
  4. the open-high-low-close consistency test.
- The volume and the amount of a pair that passes are scaled by kind-specific rules.
- The file is intraday when its lower-cased path contains `5m` or `min`, and daily otherwise.
- The accepted bars are sorted by their time string and tagged with the file stem as instrument code. Each row after the first gets the percent change of its close against the previous row.

The modules follow the program's stages:

| module | file | what it holds |
|---|---|---|
| `Wrappers` | wrappers.dfy | `Option` and `Result` |
| `RecordDecoder` | record_decoder.dfy | little-endian words; `Unpack` and its inverse `Pack`, with both round trips proved |
| `TimestampInterpreter` | timestamp.dfy | `parse_date`: the window test and the decimal-string fallback, with `str(n)` read back by `ParseDecimal` |
| `FormatDetector` | format_detector.dfy | `_detect_data_type`, as an if-and-only-if over the path's characters |
| `BarAssembler` | bar_assembler.dfy | the gate chain for one pair (`GateFields`, `AssemblePair`); the specification `FileBars` of the pairing loop, and its properties |
| `SeriesBuilder` | series_builder.dfy | the sort by time, the rows with `code` and `pct_change`, and `Path.stem` |
| `DatParser` | dat_parser.dfy | `parse_dat_file` as methods with the `for` loop over the buffer, proved equal to the function `ParsedFrame`, and the properties of the frame |

Representation choices:

- Bytes are integers in [0, 256); words are integers in [0, 2^32).
- Prices are kept as the raw integers, which are thousandths of the quoted price. The source divides them by `1000.0` before it compares them. That division is monotone and keeps zero and the sign, so every gate is stated on the raw integers.
- The amount is kept exactly in hundredths (`amountCents`):
  - a daily amount `a` is `100 * a`;
  - an intraday amount is `a` when `a > 1000000` (the source's `a / 100.0`), and `100 * a` otherwise.
- `datetime.fromtimestamp(n).strftime(..)` depends on the local time zone. It is the parameter `fmt: (int, bool) -> Option<string>`, where `None` stands for a conversion that raises.
- The file's bytes are a parameter of `ParseDatFile`; reading the file is not modelled.

The loop is the method `DatParser.CollectBars`:

- Each iteration calls `DatParser.PairAt`. It takes the slices `data[i*32 : i*32+32]` and `data[(i+1)*32 : (i+1)*32+32]` with Python's clamping (`PySlice`).
- `PairAt` runs the gate chain through `DatParser.AssembleBar`, which returns `None` where the source `continue`s.
- The invariant is that `records` equals `AcceptedBars` of the pairs visited so far.

The length test before unpacking (`break`) and the `except struct.error` branch are unreachable, because every slice inside the loop holds exactly 32 bytes. `LoopSlicesAreFull` proves this. So the method has no branch for them.

## Model

| member | source | states |
|---|---|---|
| RecordDecoder.Unpack | data_parser_qmt.py:91-92 | unpacking succeeds exactly when the block is 32 bytes long, and then yields eight words |
| RecordDecoder.UnpackFields | data_parser_qmt.py:91-92 | field k of an unpacked record is block[4k] + 256·block[4k+1] + 256²·block[4k+2] + 256³·block[4k+3] |
| RecordDecoder.FieldsAreWords | data_parser_qmt.py:91-92 | every word decoded from a buffer is the little-endian value at byte offset 4k |
| RecordDecoder.UnpackPack | data_parser_qmt.py:91-92 | packing eight 32-bit values and unpacking the result gives them back unchanged |
| RecordDecoder.PackUnpack | data_parser_qmt.py:91-92 | every 32-byte block unpacks, and packing its fields rebuilds it byte for byte |
| RecordDecoder.DecodeEncode | data_parser_qmt.py:91-92 | decoding an encoding of any word sequence returns the words |
| RecordDecoder.EncodeDecode | data_parser_qmt.py:91-92 | encoding the decoded words of a buffer whose length is a multiple of 4 returns the buffer |
| RecordDecoder.WordRoundTrip | data_parser_qmt.py:91-92 | the four little-endian bytes of a word read back as that word |
| RecordDecoder.BytesRoundTrip | data_parser_qmt.py:91-92 | four bytes read as a word and written back are the same four bytes |
| TimestampInterpreter.NatToDecimal | data_parser_qmt.py:44 | `str(n)` of a natural number is a non-empty digit string, with no leading zero unless n is 0 |
| TimestampInterpreter.DecimalStringRoundTrip | data_parser_qmt.py:44 | `str(n)` reads back as n, for every integer, negative ones included |
| TimestampInterpreter.ParseDateFallback | data_parser_qmt.py:34-46 | outside the open window (1500000000, 2000000000), or when the conversion raises, parse_date returns `str(n)`, which reads back as n |
| FormatDetector.Contains | data_parser_qmt.py:52 | `sub in s` holds exactly when sub occurs in s at some index |
| FormatDetector.IsIntraday | data_parser_qmt.py:48-52 | a path is intraday exactly when, ignoring letter case, it contains "5m" or "min" at some index |
| FormatDetector.KindOf | data_parser_qmt.py:50-52 | the kind is Intraday exactly when the path holds `5m` or `min` in any letter case at some index |
| FormatDetector.KindIgnoresCase | data_parser_qmt.py:50 | a path and its lower-cased form get the same kind |
| FormatDetector.DirectoryHints | data_parser_qmt.py:48-52 | `data/sh5mK/..` and `data/1MIN/..` are intraday; `data/szdayK/..` is daily |
| BarAssembler.CountOfFour | data_parser_qmt.py:100 | the vote counts exactly the prices p with 0 < p < limit among the four |
| BarAssembler.ZeroAndSignGatesNeverReject | data_parser_qmt.py:119-121 | once three prices pass the vote, the all-zero test cannot reject; the negativity test never can, since the fields are unsigned |
| BarAssembler.AssemblePairAccepts | data_parser_qmt.py:89-139 | a pair is accepted iff both records are 32 bytes, price field 2 lies strictly inside the window, at least 3 of fields 3–6 lie strictly between 0 and the kind's limit (10000000 intraday, 1000000 daily), and high ≥ low, high ≥ max(open, close), low ≤ min(open, close); the bar then carries fields 2–6, daily volume × 100 or intraday volume as it is, and the amount in hundredths as the kind's rule says |
| BarAssembler.AssembledBarIsSound | data_parser_qmt.py:119-127 | every accepted bar has low ≤ open, close ≤ high, open and close in (0, limit), and not all four prices zero |
| BarAssembler.PairBars | data_parser_qmt.py:89-142 | one pair contributes at most one bar |
| BarAssembler.AcceptedBarsSkip | data_parser_qmt.py:95-127 | a pair whose price record fails the timestamp window, the three-of-four vote or the OHLC check adds no bar: the collected bars stay as they were |
| BarAssembler.FileBarsLength | data_parser_qmt.py:68-77 | a file of r whole records yields at most r div 2 bars |
| BarAssembler.PairBarsOrigin | data_parser_qmt.py:95-139 | the bar of a pair, if any, comes from a price record that passed every gate and carries that pair's fields |
| BarAssembler.AcceptedBarsOrigin | data_parser_qmt.py:77-139 | every collected bar comes from some visited pair that passed every gate |
| BarAssembler.AcceptedBarsSound | data_parser_qmt.py:119-139 | every collected bar satisfies the OHLC and positivity invariants |
| BarAssembler.PassingPairIsCollected | data_parser_qmt.py:95-139 | a pair that passes the gates contributes exactly one bar, with its fields, after the earlier pairs' bars |
| BarAssembler.AcceptedBarsDependOnPrefix | data_parser_qmt.py:77-84 | the bars of the first n pairs depend only on the first 64·n bytes |
| BarAssembler.TrailingBytesIgnored | data_parser_qmt.py:68-87 | appending a trailing odd record, or fewer than 32 stray bytes, to a file of whole pairs does not change its bars |
| BarAssembler.TruncationToPairs | data_parser_qmt.py:68-77 | a file yields the same bars as its prefix of whole pairs |
| SeriesBuilder.LexLeTotal | data_parser_qmt.py:156 | any two time strings are ordered one way or the other |
| SeriesBuilder.LexLeTransitive | data_parser_qmt.py:156 | the string order is transitive |
| SeriesBuilder.LexLeAntisymmetric | data_parser_qmt.py:156 | strings ordered both ways are equal |
| SeriesBuilder.InsertPermutes | data_parser_qmt.py:156 | inserting a bar adds exactly that bar to the multiset |
| SeriesBuilder.InsertSorted | data_parser_qmt.py:156 | inserting into a time-ordered sequence keeps it time-ordered |
| SeriesBuilder.SortByTimeCorrect | data_parser_qmt.py:156 | `sort_values(time_field)` yields a time-ordered permutation of its input |
| SeriesBuilder.PctChange | data_parser_qmt.py:159 | the percent change is defined exactly when the previous close is non-zero |
| SeriesBuilder.PctChangeMeaning | data_parser_qmt.py:159 | for a positive previous close, the change is positive iff the close rose, zero iff it is flat, and prev·(1 + pct/100) = close |
| SeriesBuilder.BuildSeriesCorrect | data_parser_qmt.py:151-162 | the rows hold a permutation of the bars, ordered by time; every row has the same code; row 0 has no change, and row i ≥ 1 has the change of its close against row i−1's |
| SeriesBuilder.SingleBarSeries | data_parser_qmt.py:156-159 | one bar gives one row without a change |
| SeriesBuilder.PctChangeDefined | data_parser_qmt.py:159 | when every close is positive, every row after the first has a defined change |
| SeriesBuilder.BaseName | data_parser_qmt.py:151 | the last path component holds no '/' and is not "." |
| SeriesBuilder.Stem | data_parser_qmt.py:151 | the stem is a prefix of the name |
| SeriesBuilder.BaseNameOfFile | data_parser_qmt.py:151 | the last component of `dir/file` is `file` |
| SeriesBuilder.StemWithoutDot | data_parser_qmt.py:151 | a name without a dot is its own stem |
| SeriesBuilder.StemDropsExtension | data_parser_qmt.py:151 | the stem of `base.ext` is `base` when ext holds no dot |
| SeriesBuilder.InstrumentCodeExample | data_parser_qmt.py:151-152 | the code of `data/szdayK/000001.DAT` is `000001` |
| DatParser.PySlice | data_parser_qmt.py:80-84 | Python's `s[lo:hi]` for non-negative bounds: `s[lo..hi]` when both are in range, the rest of `s` from lo when only hi is past the end, and empty when hi ≤ lo or lo is past the end |
| DatParser.LoopSlicesAreFull | data_parser_qmt.py:77-87 | at every loop index both slices are whole records, the pair's own; so the `break` and the `struct.error` branch are unreachable |
| DatParser.AssembleBar | data_parser_qmt.py:89-139 | the gate sequence with its early exits accepts exactly the pairs `AssemblePair` accepts, and yields the same bar |
| DatParser.PairAt | data_parser_qmt.py:78-139 | one iteration appends the pair's bar, if any, to the bars collected so far |
| DatParser.CollectBars | data_parser_qmt.py:76-142 | the loop over i = 0, 2, 4, .. < record_count − 1 collects exactly the file's accepted bars, in file order |
| DatParser.ParseDatFile | data_parser_qmt.py:68-164 | the method returns exactly `ParsedFrame` of the path and the bytes |
| DatParser.ParsedFrameCorrect | data_parser_qmt.py:68-164 | the frame is empty iff no pair is accepted (or the file holds no record); otherwise its time column is `datetime` or `date` by kind, it holds between 1 and r div 2 rows, a time-ordered permutation of the accepted bars, all coded with the file stem and consistent, row 0 without a change and every later row with a defined change against its predecessor |
| DatParser.ParsedFrameIgnoresTrailingBytes | data_parser_qmt.py:68-87 | appending a trailing odd record, or fewer than 32 stray bytes, to a file of whole pairs leaves the returned frame unchanged |
| DatParser.OnePairFile | data_parser_qmt.py:68-139 | a file of one price and one volume record yields that pair's bar when it passes the gates, and nothing otherwise |
| DatParser.SamplePricesPass | data_parser_qmt.py:95-100 | the sample price record passes the window and all four votes under either limit |
| DatParser.DailyScenario | data_parser_qmt.py:112-116 | a daily pair with 500 lots and amount 5000000 gives volume 50000 and amount 5000000.00 |
| DatParser.IntradayScenario | data_parser_qmt.py:107-111 | an intraday pair with amount 2000000 (> 1000000) gives amount 20000.00 and the volume as it is |
| DatParser.HighBelowLowRejected | data_parser_qmt.py:124-127 | a pair whose high is below its low yields no bar, whatever the kind |
| DatParser.DailyFileScenario | data_parser_qmt.py:68-164 | the whole daily file gives one row coded `000001` in a `date` column, without a change |

## Left out

- Reading the file (`open(..).read()`) and the catch-all `except Exception` that prints and returns an empty frame (data_parser_qmt.py:64-66, 166-168): I/O. The bytes are a parameter.
- `parse_directory`, `parse_single_stock`, `parse_all_stocks` and the `__main__` block: directory globbing, CSV writing, progress printing and concatenating frames are I/O glue.
- `datetime.fromtimestamp(..).strftime(..)`: it depends on the local time zone and the calendar library, so it is the parameter `fmt`. Only its window test and its fallback are modelled.
- Floating point: prices are not divided by 1000, and `round(.., 2)` is not applied. Bars keep the raw thousandths of a price and the amount in exact hundredths. The sound-bar properties (open and close positive, not all four prices zero) hold of the raw thousandths. The source tests zero before rounding, so a bar with prices such as 0.001, 0.004, 0.001, 0.002 passes every gate and is stored as an all-zero row after `round(.., 2)`.
- SeriesBuilder.PctChange: computed exactly, as a real, from the unrounded thousandths. The source uses float division on closes rounded to two decimals, so a close that rounds to 0.00 would give pandas an infinite change where the model has a defined one.
- SeriesBuilder.SortByTimeCorrect: claims a time-ordered permutation only, not the order of equal times. pandas' `sort_values` does not promise a stable order either.
- FormatDetector.Lower: lower-cases ASCII letters only. Python's `str.lower` covers all of Unicode.
- SeriesBuilder.BaseName: follows POSIX `pathlib` parsing (split on '/', empty and "." components dropped). Windows paths and the normalisation `str(Path(..))` applies before lowering are not modelled.
- The `break` at line 87 and the `except struct.error` at line 141: proved unreachable by `DatParser.LoopSlicesAreFull`, so the loop has no branch for them.
- DatParser.AssembleBar: folds the all-zero / negative test and the OHLC test into one conditional skip, since both `continue`. The function `BarAssembler.GateFields` keeps them as separate rejections, in source order.
- The column reordering at line 162 and pandas' index reset: the model's row holds the same fields in a fixed order.
