/**
 * BarAssembler: the gates of `DATParser.parse_dat_file` that turn one
 * (price record, volume record) pair into a bar or reject it, and the
 * sequence of bars the pairing loop collects from a whole file.
 *
 * Prices stay the raw integer fields (thousandths of a currency unit): the
 * source divides them by 1000.0 before comparing, which preserves every
 * comparison it makes. Amounts are kept in exact hundredths.
 */
module BarAssembler {
  import opened Wrappers
  import opened RecordDecoder
  import opened TimestampInterpreter
  import opened FormatDetector

  /** Exclusive upper bound of a plausible raw price, per kind. */
  const IntradayPriceLimit: nat := 10000000
  const DailyPriceLimit: nat := 1000000

  /** How many of open, high, low, close must be plausible. */
  const VotesRequired: nat := 3

  /** Above this raw intraday amount the value is divided by 100. */
  const AmountRescaleThreshold: nat := 1000000

  /** Daily volumes are stored in lots of 100 shares. */
  const DailyVolumeMultiplier: nat := 100

  /**
   * An accepted bar. `open`..`close` are the raw price fields (thousandths),
   * `amountCents` the amount in hundredths.
   */
  datatype Bar = Bar(time: string, open: nat, high: nat, low: nat, close: nat,
                     volume: nat, amountCents: nat)

  /** Why a pair yields no bar; the source skips all of them silently. */
  datatype Rejection =
    | Malformed            // struct.error from unpack
    | NotATimestamp        // price field 2 outside the Unix-time window
    | ImplausiblePrices    // fewer than 3 of fields 3..6 in (0, limit)
    | ZeroOrNegativePrices // all four prices zero, or one negative
    | InconsistentOhlc     // high < low, high < max(open, close) or low > min(open, close)

  function PriceLimit(kind: Kind): nat
  {
    if kind == Intraday then IntradayPriceLimit else DailyPriceLimit
  }

  predicate PlausiblePrice(x: int, limit: int)
  {
    0 < x < limit
  }

  /** `len([x for x in xs if x > 0 and x < limit])` */
  function PlausibleCount(xs: seq<int>, limit: int): (n: nat)
    ensures n <= |xs|
  {
    if xs == [] then 0
    else (if PlausiblePrice(xs[0], limit) then 1 else 0) + PlausibleCount(xs[1..], limit)
  }

  predicate AllZero(open: int, high: int, low: int, close: int)
  {
    open == 0 && high == 0 && low == 0 && close == 0
  }

  predicate AnyNegative(open: int, high: int, low: int, close: int)
  {
    open < 0 || high < 0 || low < 0 || close < 0
  }

  function Max(a: int, b: int): int
  {
    if a >= b then a else b
  }

  function Min(a: int, b: int): int
  {
    if a <= b then a else b
  }

  /** The price-logic check of the source: true when the bar is skipped. */
  predicate OhlcInconsistent(open: int, high: int, low: int, close: int)
  {
    high < low || high < Max(open, close) || low > Min(open, close)
  }

  /** Volume column: intraday as stored, daily times 100. */
  function ScaledVolume(kind: Kind, raw: u32): nat
  {
    if kind == Intraday then raw else raw * DailyVolumeMultiplier
  }

  /**
   * Amount column in hundredths: an intraday raw amount above 1,000,000 is
   * divided by 100 (so its hundredths are the raw value); every other raw
   * amount is used as it is.
   */
  function AmountCents(kind: Kind, raw: u32): nat
  {
    if kind == Intraday && raw > AmountRescaleThreshold then raw else raw * 100
  }

  /** Field k of a 32-byte record. */
  function Field(block: seq<byte>, k: nat): u32
    requires |block| == RecordSize && k < FieldsPerRecord
  {
    WordAt(block, 4 * k)
  }

  /** The gates applied to the decoded price fields `p` and volume fields `v`. */
  function GateFields(p: seq<u32>, v: seq<u32>, kind: Kind, fmt: Formatter): Result<Bar, Rejection>
    requires |p| == FieldsPerRecord && |v| == FieldsPerRecord
  {
    if !IsPlausibleTimestamp(p[2]) then Failure(NotATimestamp)
    else if PlausibleCount(p[3..7], PriceLimit(kind)) < VotesRequired then Failure(ImplausiblePrices)
    else if AllZero(p[3], p[4], p[5], p[6]) || AnyNegative(p[3], p[4], p[5], p[6]) then
      Failure(ZeroOrNegativePrices)
    else if OhlcInconsistent(p[3], p[4], p[5], p[6]) then Failure(InconsistentOhlc)
    else
      Success(Bar(ParseDate(p[2], kind == Intraday, fmt), p[3], p[4], p[5], p[6],
                  ScaledVolume(kind, v[0]), AmountCents(kind, v[2])))
  }

  /** One iteration of the pairing loop: a bar, or the reason it is skipped. */
  function AssemblePair(priceData: seq<byte>, volumeData: seq<byte>, kind: Kind, fmt: Formatter)
    : Result<Bar, Rejection>
  {
    match (Unpack(priceData), Unpack(volumeData))
    case (Failure(_), _) => Failure(Malformed)
    case (_, Failure(_)) => Failure(Malformed)
    case (Success(p), Success(v)) => GateFields(p, v, kind, fmt)
  }

  /** The price record passes every gate that can reject it. */
  predicate PassesGates(priceData: seq<byte>, kind: Kind)
  {
    && |priceData| == RecordSize
    && IsPlausibleTimestamp(Field(priceData, 2))
    && PlausibleCount([Field(priceData, 3), Field(priceData, 4), Field(priceData, 5), Field(priceData, 6)],
                      PriceLimit(kind)) >= VotesRequired
    && !OhlcInconsistent(Field(priceData, 3), Field(priceData, 4), Field(priceData, 5), Field(priceData, 6))
  }

  /** The bar that a passing pair yields, read straight from the record bytes. */
  predicate BarFromRecords(b: Bar, priceData: seq<byte>, volumeData: seq<byte>, kind: Kind, fmt: Formatter)
    requires |priceData| == RecordSize && |volumeData| == RecordSize
  {
    && b.time == ParseDate(Field(priceData, 2), kind == Intraday, fmt)
    && b.open == Field(priceData, 3) && b.high == Field(priceData, 4)
    && b.low == Field(priceData, 5) && b.close == Field(priceData, 6)
    && b.volume == (if kind == Daily then Field(volumeData, 0) * 100 else Field(volumeData, 0))
    && b.amountCents == (if kind == Intraday && Field(volumeData, 2) > 1000000
                         then Field(volumeData, 2) else Field(volumeData, 2) * 100)
  }

  /** What every emitted bar satisfies. */
  predicate SoundBar(b: Bar, kind: Kind)
  {
    && b.low <= b.open <= b.high
    && b.low <= b.close <= b.high
    && 0 < b.open < PriceLimit(kind)
    && 0 < b.close < PriceLimit(kind)
    && b.low < PriceLimit(kind)
    && !AllZero(b.open, b.high, b.low, b.close)
  }

  lemma CountOfFour(a: int, b: int, c: int, d: int, limit: int)
    ensures PlausibleCount([a, b, c, d], limit)
         == (if PlausiblePrice(a, limit) then 1 else 0) + (if PlausiblePrice(b, limit) then 1 else 0)
          + (if PlausiblePrice(c, limit) then 1 else 0) + (if PlausiblePrice(d, limit) then 1 else 0)
  {
    assert [a, b, c, d][1..] == [b, c, d];
    assert [b, c, d][1..] == [c, d];
    assert [c, d][1..] == [d];
    assert [d][1..] == [];
    assert PlausibleCount([d], limit) == (if PlausiblePrice(d, limit) then 1 else 0);
    assert PlausibleCount([c, d], limit)
        == (if PlausiblePrice(c, limit) then 1 else 0) + PlausibleCount([d], limit);
    assert PlausibleCount([b, c, d], limit)
        == (if PlausiblePrice(b, limit) then 1 else 0) + PlausibleCount([c, d], limit);
  }

  /**
   * Once three of the four prices are plausible, the all-zero test cannot
   * reject, and the negativity test never can, the fields being unsigned.
   */
  lemma ZeroAndSignGatesNeverReject(open: u32, high: u32, low: u32, close: u32, limit: int)
    requires PlausibleCount([open, high, low, close], limit) >= VotesRequired
    ensures !AllZero(open, high, low, close) && !AnyNegative(open, high, low, close)
  {
    CountOfFour(open, high, low, close, limit);
  }

  /**
   * A pair is accepted exactly when both records are 32 bytes long and the
   * price record passes the timestamp window, the three-of-four price vote
   * and the OHLC check; the bar then carries the record's fields, scaled by
   * the kind's rules.
   */
  lemma AssemblePairAccepts(priceData: seq<byte>, volumeData: seq<byte>, kind: Kind, fmt: Formatter)
    ensures AssemblePair(priceData, volumeData, kind, fmt).Success?
        <==> |volumeData| == RecordSize && PassesGates(priceData, kind)
    ensures AssemblePair(priceData, volumeData, kind, fmt).Success? ==>
              BarFromRecords(AssemblePair(priceData, volumeData, kind, fmt).value, priceData, volumeData, kind, fmt)
  {
    if |priceData| == RecordSize && |volumeData| == RecordSize {
      UnpackFields(priceData);
      UnpackFields(volumeData);
      var p := Unpack(priceData).value;
      assert p[3..7] == [Field(priceData, 3), Field(priceData, 4), Field(priceData, 5), Field(priceData, 6)];
      if PlausibleCount(p[3..7], PriceLimit(kind)) >= VotesRequired {
        ZeroAndSignGatesNeverReject(p[3], p[4], p[5], p[6], PriceLimit(kind));
      }
    }
  }

  /** Every bar the assembler yields is consistent: low <= open, close <= high, prices positive. */
  lemma AssembledBarIsSound(priceData: seq<byte>, volumeData: seq<byte>, kind: Kind, fmt: Formatter)
    requires AssemblePair(priceData, volumeData, kind, fmt).Success?
    ensures SoundBar(AssemblePair(priceData, volumeData, kind, fmt).value, kind)
  {
    AssemblePairAccepts(priceData, volumeData, kind, fmt);
    var b := AssemblePair(priceData, volumeData, kind, fmt).value;
    CountOfFour(b.open, b.high, b.low, b.close, PriceLimit(kind));
  }

  // ---- The pairing loop over a whole file ----

  /** `len(data) // 32`: trailing bytes short of a record are not counted. */
  function RecordCount(data: seq<byte>): nat
  {
    |data| / RecordSize
  }

  /** Iterations of `range(0, record_count - 1, 2)`. */
  function PairCount(data: seq<byte>): nat
  {
    RecordCount(data) / 2
  }

  /** Record 2k, the price record of pair k. */
  function PriceRecord(data: seq<byte>, k: nat): (r: seq<byte>)
    requires k < PairCount(data)
    ensures |r| == RecordSize
  {
    data[2 * k * RecordSize..(2 * k + 1) * RecordSize]
  }

  /** Record 2k + 1, the volume record of pair k. */
  function VolumeRecord(data: seq<byte>, k: nat): (r: seq<byte>)
    requires k < PairCount(data)
    ensures |r| == RecordSize
  {
    data[(2 * k + 1) * RecordSize..(2 * k + 2) * RecordSize]
  }

  /** The bar of pair k, if it has one. */
  function PairBars(data: seq<byte>, kind: Kind, fmt: Formatter, k: nat): (bs: seq<Bar>)
    requires k < PairCount(data)
    ensures |bs| <= 1
  {
    match AssemblePair(PriceRecord(data, k), VolumeRecord(data, k), kind, fmt)
    case Success(b) => [b]
    case Failure(_) => []
  }

  /** The `records` list after the first n pairs, in file order. */
  function AcceptedBars(data: seq<byte>, kind: Kind, fmt: Formatter, n: nat): seq<Bar>
    requires n <= PairCount(data)
  {
    if n == 0 then [] else AcceptedBars(data, kind, fmt, n - 1) + PairBars(data, kind, fmt, n - 1)
  }

  /**
   * A pair whose price record fails the timestamp window, the price vote or
   * the OHLC check leaves the collected bars as they were.
   */
  lemma AcceptedBarsSkip(data: seq<byte>, kind: Kind, fmt: Formatter, k: nat)
    requires k < PairCount(data) && !PassesGates(PriceRecord(data, k), kind)
    ensures AcceptedBars(data, kind, fmt, k + 1) == AcceptedBars(data, kind, fmt, k)
  {
    AssemblePairAccepts(PriceRecord(data, k), VolumeRecord(data, k), kind, fmt);
    assert PairBars(data, kind, fmt, k) == [];
  }

  /** The `records` list after the whole file. */
  function FileBars(data: seq<byte>, kind: Kind, fmt: Formatter): seq<Bar>
  {
    AcceptedBars(data, kind, fmt, PairCount(data))
  }

  /** n pairs yield at most n bars. */
  lemma {:induction false} AcceptedBarsLength(data: seq<byte>, kind: Kind, fmt: Formatter, n: nat)
    requires n <= PairCount(data)
    ensures |AcceptedBars(data, kind, fmt, n)| <= n
  {
    if n > 0 {
      AcceptedBarsLength(data, kind, fmt, n - 1);
    }
  }

  /** A file of r full records yields at most r div 2 bars. */
  lemma FileBarsLength(data: seq<byte>, kind: Kind, fmt: Formatter)
    ensures |FileBars(data, kind, fmt)| <= RecordCount(data) / 2
  {
    AcceptedBarsLength(data, kind, fmt, PairCount(data));
  }

  /** Bar b is what pair k yields: its price record passed every gate and b carries the pair's fields. */
  predicate FromPair(b: Bar, data: seq<byte>, kind: Kind, fmt: Formatter, k: nat)
    requires k < PairCount(data)
  {
    PassesGates(PriceRecord(data, k), kind)
    && BarFromRecords(b, PriceRecord(data, k), VolumeRecord(data, k), kind, fmt)
  }

  /** The bar of pair k, if any, passed every gate and carries that pair's fields. */
  lemma PairBarsOrigin(data: seq<byte>, kind: Kind, fmt: Formatter, k: nat)
    requires k < PairCount(data)
    ensures forall b :: b in PairBars(data, kind, fmt, k) ==> FromPair(b, data, kind, fmt, k)
  {
    var r := AssemblePair(PriceRecord(data, k), VolumeRecord(data, k), kind, fmt);
    AssemblePairAccepts(PriceRecord(data, k), VolumeRecord(data, k), kind, fmt);
    if r.Success? {
      assert PairBars(data, kind, fmt, k) == [r.value];
    } else {
      assert PairBars(data, kind, fmt, k) == [];
    }
  }

  /** Each collected bar comes from some earlier pair that passed every gate. */
  lemma {:induction false} AcceptedBarsOrigin(data: seq<byte>, kind: Kind, fmt: Formatter, n: nat)
    requires n <= PairCount(data)
    ensures forall b :: b in AcceptedBars(data, kind, fmt, n) ==>
              exists k :: 0 <= k < n && FromPair(b, data, kind, fmt, k)
  {
    if n > 0 {
      var k := n - 1;
      AcceptedBarsOrigin(data, kind, fmt, k);
      PairBarsOrigin(data, kind, fmt, k);
      forall b | b in AcceptedBars(data, kind, fmt, n)
        ensures exists j :: 0 <= j < n && FromPair(b, data, kind, fmt, j)
      {
        if b in AcceptedBars(data, kind, fmt, k) {
          var j :| 0 <= j < k && FromPair(b, data, kind, fmt, j);
          assert 0 <= j < n && FromPair(b, data, kind, fmt, j);
        } else {
          assert b in PairBars(data, kind, fmt, k);
          assert FromPair(b, data, kind, fmt, k);
        }
      }
    }
  }

  /** Every collected bar is consistent. */
  lemma {:induction false} AcceptedBarsSound(data: seq<byte>, kind: Kind, fmt: Formatter, n: nat)
    requires n <= PairCount(data)
    ensures forall b :: b in AcceptedBars(data, kind, fmt, n) ==> SoundBar(b, kind)
  {
    if n > 0 {
      AcceptedBarsSound(data, kind, fmt, n - 1);
      var k := n - 1;
      var r := AssemblePair(PriceRecord(data, k), VolumeRecord(data, k), kind, fmt);
      if r.Success? {
        AssembledBarIsSound(PriceRecord(data, k), VolumeRecord(data, k), kind, fmt);
        assert PairBars(data, kind, fmt, k) == [r.value];
      } else {
        assert PairBars(data, kind, fmt, k) == [];
      }
    }
  }

  /** Every pair that passes the gates contributes its bar, in file order. */
  lemma PassingPairIsCollected(data: seq<byte>, kind: Kind, fmt: Formatter, k: nat)
    requires k < PairCount(data) && PassesGates(PriceRecord(data, k), kind)
    ensures exists b :: PairBars(data, kind, fmt, k) == [b]
                     && BarFromRecords(b, PriceRecord(data, k), VolumeRecord(data, k), kind, fmt)
    ensures AcceptedBars(data, kind, fmt, k + 1) == AcceptedBars(data, kind, fmt, k) + PairBars(data, kind, fmt, k)
  {
    AssemblePairAccepts(PriceRecord(data, k), VolumeRecord(data, k), kind, fmt);
  }

  lemma SliceOfPrefix(a: seq<byte>, b: seq<byte>, m: nat, lo: nat, hi: nat)
    requires lo <= hi <= m <= |a| && m <= |b| && a[..m] == b[..m]
    ensures a[lo..hi] == b[lo..hi]
  {
    assert a[lo..hi] == a[..m][lo..hi];
    assert b[lo..hi] == b[..m][lo..hi];
  }

  /** The first n pairs depend only on the first 64 n bytes. */
  lemma {:induction false} AcceptedBarsDependOnPrefix(data: seq<byte>, other: seq<byte>, kind: Kind, fmt: Formatter, n: nat)
    requires n <= PairCount(data) && n <= PairCount(other)
    requires data[..2 * n * RecordSize] == other[..2 * n * RecordSize]
    ensures AcceptedBars(data, kind, fmt, n) == AcceptedBars(other, kind, fmt, n)
  {
    if n > 0 {
      var m := 2 * n * RecordSize;
      var m' := 2 * (n - 1) * RecordSize;
      assert m == m' + 2 * RecordSize;
      assert data[..m'] == data[..m][..m'];
      assert other[..m'] == other[..m][..m'];
      AcceptedBarsDependOnPrefix(data, other, kind, fmt, n - 1);
      SliceOfPrefix(data, other, m, m', m' + RecordSize);
      SliceOfPrefix(data, other, m, m' + RecordSize, m);
      assert PriceRecord(data, n - 1) == PriceRecord(other, n - 1);
      assert VolumeRecord(data, n - 1) == VolumeRecord(other, n - 1);
    }
  }

  /**
   * Bytes after the last full pair never influence the result: a trailing
   * unpaired record and a tail shorter than a record are both ignored.
   */
  lemma TrailingBytesIgnored(data: seq<byte>, tail: seq<byte>, kind: Kind, fmt: Formatter)
    requires |data| % (2 * RecordSize) == 0 && |tail| < 2 * RecordSize
    ensures FileBars(data + tail, kind, fmt) == FileBars(data, kind, fmt)
  {
    var n := PairCount(data);
    assert PairCount(data + tail) == n;
    assert (data + tail)[..2 * n * RecordSize] == data[..2 * n * RecordSize];
    AcceptedBarsDependOnPrefix(data + tail, data, kind, fmt, n);
  }

  /** A file yields the same bars as its truncation to whole pairs of records. */
  lemma TruncationToPairs(data: seq<byte>, kind: Kind, fmt: Formatter)
    ensures FileBars(data, kind, fmt) == FileBars(data[..2 * RecordSize * PairCount(data)], kind, fmt)
  {
    var cut := 2 * RecordSize * PairCount(data);
    assert data == data[..cut] + data[cut..];
    TrailingBytesIgnored(data[..cut], data[cut..], kind, fmt);
  }
}
