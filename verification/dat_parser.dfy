/**
 * DatParser: `DATParser.parse_dat_file` for one file, given the file's path
 * and its bytes. The pairing loop is a method proved against the
 * specification function ParsedFrame; the properties of the result are
 * lemmas about ParsedFrame.
 */
module DatParser {
  import opened Wrappers
  import opened RecordDecoder
  import opened TimestampInterpreter
  import opened FormatDetector
  import opened BarAssembler
  import opened SeriesBuilder

  /** The DataFrame returned: one without columns, or the named time column and the rows. */
  datatype Frame = EmptyFrame | Frame(timeColumn: string, rows: seq<Row>)

  /** Name of the time column: `datetime` for intraday files, `date` for daily ones. */
  function TimeColumn(kind: Kind): string
  {
    if kind == Intraday then "datetime" else "date"
  }

  /** Python's `s[lo:hi]` for non-negative bounds: both ends are clamped to the length. */
  function PySlice(s: seq<byte>, lo: nat, hi: nat): (r: seq<byte>)
    ensures lo <= hi <= |s| ==> r == s[lo..hi]
    ensures lo <= |s| < hi ==> r == s[lo..]
    ensures hi <= lo || |s| <= lo ==> r == []
  {
    var a := if lo < |s| then lo else |s|;
    var b := if hi < |s| then hi else |s|;
    if a <= b then s[a..b] else []
  }

  /**
   * Inside the loop, at record i = 2k, both slices are whole records, so the
   * source's length check before unpacking never breaks out of the loop.
   */
  lemma LoopSlicesAreFull(data: seq<byte>, i: nat, k: nat)
    requires i == 2 * k && i + 1 < RecordCount(data)
    ensures k < PairCount(data)
    ensures PySlice(data, i * RecordSize, i * RecordSize + RecordSize) == PriceRecord(data, k)
    ensures PySlice(data, (i + 1) * RecordSize, (i + 1) * RecordSize + RecordSize) == VolumeRecord(data, k)
    ensures |PriceRecord(data, k)| == RecordSize && |VolumeRecord(data, k)| == RecordSize
  {
    assert (i + 2) * RecordSize <= |data|;
  }

  /** One step of the loop: the pair's bar, if any, is appended. */
  lemma AcceptedBarsStep(data: seq<byte>, kind: Kind, fmt: Formatter, k: nat, bar: Option<Bar>)
    requires k < PairCount(data)
    requires bar.Some? <==> AssemblePair(PriceRecord(data, k), VolumeRecord(data, k), kind, fmt).Success?
    requires bar.Some? ==> bar.value == AssemblePair(PriceRecord(data, k), VolumeRecord(data, k), kind, fmt).value
    ensures AcceptedBars(data, kind, fmt, k + 1)
         == AcceptedBars(data, kind, fmt, k) + (if bar.Some? then [bar.value] else [])
  {
  }

  /** When the loop stops at record i = 2k, every pair has been visited. */
  lemma LoopVisitsEveryPair(data: seq<byte>, i: nat, k: nat)
    requires i == 2 * k && k <= PairCount(data) && i + 1 >= RecordCount(data)
    ensures k == PairCount(data)
  {
  }

  /** What `parse_dat_file` returns for the file at `path` holding `data`. */
  function ParsedFrame(path: string, data: seq<byte>, fmt: Formatter): Frame
  {
    if RecordCount(data) == 0 then EmptyFrame
    else
      var kind := KindOf(path);
      var bars := FileBars(data, kind, fmt);
      if bars == [] then EmptyFrame
      else Frame(TimeColumn(kind), BuildSeries(bars, InstrumentCode(path)))
  }

  /**
   * `parse_dat_file(path)` once the file has been read into `data`: collect
   * the bars of the record pairs, then sort, tag with the code and derive
   * pct_change.
   */
  method ParseDatFile(path: string, data: seq<byte>, fmt: Formatter) returns (frame: Frame)
    ensures frame == ParsedFrame(path, data, fmt)
  {
    var recordCount := |data| / RecordSize;
    if recordCount == 0 {
      return EmptyFrame;
    }
    var isIntraday := IsIntraday(path);
    var kind := if isIntraday then Intraday else Daily;
    var records := CollectBars(data, kind, fmt);
    if records == [] {
      return EmptyFrame;
    }
    var code := InstrumentCode(path);
    frame := Frame(TimeColumn(kind), BuildSeries(records, code));
  }

  /**
   * The pairing loop of `parse_dat_file`: records 0, 2, 4, .. below
   * `record_count - 1` are price records, each followed by its volume record;
   * a pair that fails a gate is skipped, an accepted one appends its bar.
   */
  method CollectBars(data: seq<byte>, kind: Kind, fmt: Formatter) returns (records: seq<Bar>)
    ensures records == FileBars(data, kind, fmt)
  {
    var recordCount := |data| / RecordSize;
    records := [];
    var i := 0;
    ghost var k: nat := 0;
    while i < recordCount - 1
      invariant i == 2 * k && k <= PairCount(data)
      invariant records == AcceptedBars(data, kind, fmt, k)
    {
      var bar := PairAt(data, i, k, kind, fmt);
      if bar.Some? {
        records := records + [bar.value];
      }
      i, k := i + 2, k + 1;
    }
    LoopVisitsEveryPair(data, i, k);
  }

  /**
   * One iteration of the pairing loop at record i = 2k: slice the price
   * record and the volume record that follows it, and assemble their bar.
   */
  method PairAt(data: seq<byte>, i: nat, ghost k: nat, kind: Kind, fmt: Formatter) returns (bar: Option<Bar>)
    requires i == 2 * k && i + 1 < RecordCount(data)
    ensures k < PairCount(data)
    ensures AcceptedBars(data, kind, fmt, k + 1)
         == AcceptedBars(data, kind, fmt, k) + (if bar.Some? then [bar.value] else [])
  {
    var pricePos := i * RecordSize;
    var priceData := PySlice(data, pricePos, pricePos + RecordSize);
    var volumePos := (i + 1) * RecordSize;
    var volumeData := PySlice(data, volumePos, volumePos + RecordSize);
    LoopSlicesAreFull(data, i, k);
    bar := AssembleBar(priceData, volumeData, kind, fmt);
    AcceptedBarsStep(data, kind, fmt, k, bar);
  }

  /**
   * The body of the pairing loop for one price record and its volume record:
   * the timestamp gate, the 3-of-4 price vote, the zero/negative gate, the
   * price-logic gate, then the kind-dependent scaling of volume and amount.
   * None is a skipped pair.
   */
  method AssembleBar(priceData: seq<byte>, volumeData: seq<byte>, kind: Kind, fmt: Formatter)
    returns (bar: Option<Bar>)
    requires |priceData| == RecordSize && |volumeData| == RecordSize
    ensures bar.Some? <==> AssemblePair(priceData, volumeData, kind, fmt).Success?
    ensures bar.Some? ==> bar.value == AssemblePair(priceData, volumeData, kind, fmt).value
  {
    var isIntraday := kind == Intraday;
    var p := Unpack(priceData).value;
    var v := Unpack(volumeData).value;
    if !IsPlausibleTimestamp(p[2]) {
      return None;
    }
    var priceLimit := if isIntraday then IntradayPriceLimit else DailyPriceLimit;
    if PlausibleCount(p[3..7], priceLimit) < VotesRequired {
      return None;
    }
    var openPrice, highPrice, lowPrice, closePrice := p[3], p[4], p[5], p[6];
    var volume: nat, amount: nat;
    if isIntraday {
      volume := v[0];
      amount := if v[2] > AmountRescaleThreshold then v[2] else v[2] * 100;
    } else {
      volume := v[0] * DailyVolumeMultiplier;
      amount := v[2] * 100;
    }
    // The zero/negative test and the price-logic test both skip the pair.
    if AllZero(openPrice, highPrice, lowPrice, closePrice)
      || AnyNegative(openPrice, highPrice, lowPrice, closePrice)
      || OhlcInconsistent(openPrice, highPrice, lowPrice, closePrice)
    {
      return None;
    }
    bar := Some(Bar(ParseDate(p[2], isIntraday, fmt), openPrice, highPrice, lowPrice,
                    closePrice, volume, amount));
  }

  /**
   * The result is empty exactly when no pair is accepted. Otherwise it holds
   * one row per accepted bar, at most one per two records, time-ordered,
   * every row tagged with the file's stem and satisfying the price
   * invariants, the first row without a percent change and every later row
   * with a defined one against its predecessor.
   */
  lemma ParsedFrameCorrect(path: string, data: seq<byte>, fmt: Formatter)
    ensures ParsedFrame(path, data, fmt).EmptyFrame? <==> FileBars(data, KindOf(path), fmt) == []
    ensures ParsedFrame(path, data, fmt).Frame? ==>
      var rows := ParsedFrame(path, data, fmt).rows;
      && ParsedFrame(path, data, fmt).timeColumn == TimeColumn(KindOf(path))
      && 0 < |rows| <= RecordCount(data) / 2
      && multiset(BarsOf(rows)) == multiset(FileBars(data, KindOf(path), fmt))
      && SortedByTime(BarsOf(rows))
      && (forall i :: 0 <= i < |rows| ==> rows[i].code == InstrumentCode(path))
      && (forall i :: 0 <= i < |rows| ==> SoundBar(rows[i].bar, KindOf(path)))
      && rows[0].pctChange == None
      && (forall i :: 1 <= i < |rows| ==>
            rows[i].pctChange.Some? && rows[i].pctChange == PctChange(rows[i - 1].bar.close, rows[i].bar.close))
  {
    var kind := KindOf(path);
    var bars := FileBars(data, kind, fmt);
    FileBarsLength(data, kind, fmt);
    if ParsedFrame(path, data, fmt).Frame? {
      var code := InstrumentCode(path);
      var rows := BuildSeries(bars, code);
      BuildSeriesCorrect(bars, code);
      AcceptedBarsSound(data, kind, fmt, PairCount(data));
      PctChangeDefined(bars, code);
      forall i | 0 <= i < |rows|
        ensures SoundBar(rows[i].bar, kind)
      {
        assert rows[i].bar == BarsOf(rows)[i];
        assert rows[i].bar in multiset(BarsOf(rows));
      }
    }
  }

  /**
   * A trailing odd record, or fewer than 32 stray bytes, after whole pairs
   * does not change the frame.
   */
  lemma ParsedFrameIgnoresTrailingBytes(path: string, data: seq<byte>, tail: seq<byte>, fmt: Formatter)
    requires |data| % (2 * RecordSize) == 0 && |tail| < 2 * RecordSize
    ensures ParsedFrame(path, data + tail, fmt) == ParsedFrame(path, data, fmt)
  {
    var kind := KindOf(path);
    TrailingBytesIgnored(data, tail, kind, fmt);
    if |data| == 0 {
      // no record before the tail, so the tail alone yields no bar
      assert ParsedFrame(path, data, fmt) == EmptyFrame;
      assert FileBars(data, kind, fmt) == [];
    } else {
      assert RecordCount(data) > 0 && RecordCount(data + tail) > 0;
    }
  }

  // ---- Worked cases ----

  /** Price record of the worked daily and intraday cases: open 10.0, high 10.5, low 9.9, close 10.2. */
  const SamplePrices: seq<u32> := [0, 0, 1700000000, 10000, 10500, 9900, 10200, 0]

  /** Price record whose high (9.8) is below its low (9.9). */
  const HighBelowLowPrices: seq<u32> := [0, 0, 1700000000, 10000, 9800, 9900, 10200, 0]

  /**
   * A file holding one price record and one volume record yields the bar of
   * those fields when they pass the gates, and nothing otherwise.
   */
  lemma OnePairFile(price: seq<u32>, volume: seq<u32>, kind: Kind, fmt: Formatter)
    requires |price| == FieldsPerRecord && |volume| == FieldsPerRecord
    ensures FileBars(Pack(price) + Pack(volume), kind, fmt)
         == match GateFields(price, volume, kind, fmt)
            case Success(b) => [b]
            case Failure(_) => []
  {
    var data := Pack(price) + Pack(volume);
    assert PairCount(data) == 1;
    assert FileBars(data, kind, fmt) == AcceptedBars(data, kind, fmt, 0) + PairBars(data, kind, fmt, 0);
    assert PriceRecord(data, 0) == Pack(price);
    assert VolumeRecord(data, 0) == Pack(volume);
    UnpackPack(price);
    UnpackPack(volume);
  }

  /** The daily volume record of the worked cases: 500 lots, amount 5000000. */
  const DailyVolumes: seq<u32> := [500, 0, 5000000, 0, 0, 0, 0, 0]

  /** The intraday volume record of the worked cases: 500 shares, amount 2000000. */
  const IntradayVolumes: seq<u32> := [500, 0, 2000000, 0, 0, 0, 0, 0]

  /** The sample prices pass every gate under either kind's price limit. */
  lemma SamplePricesPass(kind: Kind)
    ensures IsPlausibleTimestamp(SamplePrices[2])
    ensures PlausibleCount(SamplePrices[3..7], PriceLimit(kind)) == 4
  {
    CountOfFour(10000, 10500, 9900, 10200, PriceLimit(kind));
    assert SamplePrices[3..7] == [10000, 10500, 9900, 10200];
  }

  /** A daily pair: volume 500 lots gives 50000, the amount 5000000 is kept as it is. */
  lemma DailyScenario(fmt: Formatter)
    ensures FileBars(Pack(SamplePrices) + Pack(DailyVolumes), Daily, fmt)
         == [Bar(ParseDate(1700000000, false, fmt), 10000, 10500, 9900, 10200, 50000, 500000000)]
  {
    SamplePricesPass(Daily);
    OnePairFile(SamplePrices, DailyVolumes, Daily, fmt);
  }

  /** An intraday pair: volume kept, the amount 2000000 exceeds 1000000 and becomes 20000.00. */
  lemma IntradayScenario(fmt: Formatter)
    ensures FileBars(Pack(SamplePrices) + Pack(IntradayVolumes), Intraday, fmt)
         == [Bar(ParseDate(1700000000, true, fmt), 10000, 10500, 9900, 10200, 500, 2000000)]
  {
    SamplePricesPass(Intraday);
    OnePairFile(SamplePrices, IntradayVolumes, Intraday, fmt);
  }

  /** A pair whose high is below its low is never emitted, whatever the kind. */
  lemma HighBelowLowRejected(volume: seq<u32>, kind: Kind, fmt: Formatter)
    requires |volume| == FieldsPerRecord
    ensures FileBars(Pack(HighBelowLowPrices) + Pack(volume), kind, fmt) == []
  {
    OnePairFile(HighBelowLowPrices, volume, kind, fmt);
  }

  /** The whole daily case through parse_dat_file: one row, coded "000001", no percent change. */
  lemma DailyFileScenario(fmt: Formatter)
    ensures ParsedFrame("data/szdayK/000001.DAT", Pack(SamplePrices) + Pack(DailyVolumes), fmt)
         == Frame("date", [Row("000001", Bar(ParseDate(1700000000, false, fmt), 10000, 10500, 9900, 10200, 50000, 500000000), None)])
  {
    var b := Bar(ParseDate(1700000000, false, fmt), 10000, 10500, 9900, 10200, 50000, 500000000);
    DirectoryHints();
    InstrumentCodeExample();
    DailyScenario(fmt);
    SingleBarSeries(b, "000001");
  }

}
