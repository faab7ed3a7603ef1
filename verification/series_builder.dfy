/**
 * SeriesBuilder: the end of `DATParser.parse_dat_file`. The collected bars
 * are sorted by their time string, tagged with the file stem as instrument
 * code, and given the percent change of close against the previous row.
 */
module SeriesBuilder {
  import opened Wrappers
  import opened BarAssembler

  // ---- Ordering of time strings ----

  /** Python's `a <= b` on strings: lexicographic by code point. */
  predicate LexLe(a: string, b: string)
  {
    if a == [] then true
    else if b == [] then false
    else if a[0] != b[0] then a[0] < b[0]
    else LexLe(a[1..], b[1..])
  }

  lemma {:induction false} LexLeTotal(a: string, b: string)
    ensures LexLe(a, b) || LexLe(b, a)
  {
    if a != [] && b != [] && a[0] == b[0] {
      LexLeTotal(a[1..], b[1..]);
    }
  }

  lemma {:induction false} LexLeTransitive(a: string, b: string, c: string)
    requires LexLe(a, b) && LexLe(b, c)
    ensures LexLe(a, c)
  {
    if a != [] && b != [] && c != [] && a[0] == b[0] && b[0] == c[0] {
      LexLeTransitive(a[1..], b[1..], c[1..]);
    }
  }

  lemma {:induction false} LexLeAntisymmetric(a: string, b: string)
    requires LexLe(a, b) && LexLe(b, a)
    ensures a == b
  {
    if a != [] && b != [] {
      LexLeAntisymmetric(a[1..], b[1..]);
      assert a == [a[0]] + a[1..] && b == [b[0]] + b[1..];
    }
  }

  predicate SortedByTime(s: seq<Bar>)
  {
    forall i, j :: 0 <= i < j < |s| ==> LexLe(s[i].time, s[j].time)
  }

  // ---- `df.sort_values(time_field)` ----

  /** Insertion of one bar into a sorted sequence, before the first later-or-equal time. */
  function Insert(b: Bar, s: seq<Bar>): (r: seq<Bar>)
    ensures |r| == |s| + 1
  {
    if s == [] || LexLe(b.time, s[0].time) then [b] + s else [s[0]] + Insert(b, s[1..])
  }

  /** The bars ordered by time string. Only sortedness and permutation are claimed, not the order of ties. */
  function SortByTime(bars: seq<Bar>): (r: seq<Bar>)
    ensures |r| == |bars|
  {
    if bars == [] then [] else Insert(bars[0], SortByTime(bars[1..]))
  }

  lemma {:induction false} InsertPermutes(b: Bar, s: seq<Bar>)
    ensures multiset(Insert(b, s)) == multiset(s) + multiset{b}
  {
    if s != [] && !LexLe(b.time, s[0].time) {
      InsertPermutes(b, s[1..]);
      assert s == [s[0]] + s[1..];
    }
  }

  lemma {:induction false} InsertSorted(b: Bar, s: seq<Bar>)
    requires SortedByTime(s)
    ensures SortedByTime(Insert(b, s))
  {
    if s == [] || LexLe(b.time, s[0].time) {
      var r := [b] + s;
      forall i, j | 0 <= i < j < |r|
        ensures LexLe(r[i].time, r[j].time)
      {
        if i == 0 && j > 1 {
          LexLeTransitive(b.time, s[0].time, s[j - 1].time);
        }
      }
    } else {
      LexLeTotal(b.time, s[0].time);
      InsertSorted(b, s[1..]);
      InsertPermutes(b, s[1..]);
      var rest := Insert(b, s[1..]);
      forall j | 0 <= j < |rest|
        ensures LexLe(s[0].time, rest[j].time)
      {
        assert rest[j] in multiset(rest);
        if rest[j] != b {
          assert rest[j] in multiset(s[1..]);
          var k :| 0 <= k < |s[1..]| && s[1..][k] == rest[j];
          assert s[k + 1] == rest[j];
        }
      }
      var r := [s[0]] + rest;
      forall i, j | 0 <= i < j < |r|
        ensures LexLe(r[i].time, r[j].time)
      {
        assert r[j] == rest[j - 1];
        if i > 0 {
          assert r[i] == rest[i - 1];
        }
      }
    }
  }

  /** The sort yields a time-ordered permutation of its input. */
  lemma {:induction false} SortByTimeCorrect(bars: seq<Bar>)
    ensures SortedByTime(SortByTime(bars))
    ensures multiset(SortByTime(bars)) == multiset(bars)
  {
    if bars != [] {
      SortByTimeCorrect(bars[1..]);
      InsertSorted(bars[0], SortByTime(bars[1..]));
      InsertPermutes(bars[0], SortByTime(bars[1..]));
      assert bars == [bars[0]] + bars[1..];
    }
  }

  // ---- `df['close'].pct_change() * 100` ----

  /**
   * Percent change from `prev` to `cur`: (cur / prev - 1) * 100, and None
   * where the division by a zero previous close leaves no finite value.
   */
  function PctChange(prev: nat, cur: nat): (r: Option<real>)
    ensures r.Some? <==> prev > 0
  {
    if prev == 0 then None else Some((cur as real / prev as real - 1.0) * 100.0)
  }

  /**
   * The percent change is positive exactly on a rise, zero exactly when flat,
   * and compounding the previous close by it gives back the current close.
   */
  lemma PctChangeMeaning(prev: nat, cur: nat)
    requires prev > 0
    ensures PctChange(prev, cur).Some?
    ensures PctChange(prev, cur).value > 0.0 <==> cur > prev
    ensures PctChange(prev, cur).value == 0.0 <==> cur == prev
    ensures prev as real * (1.0 + PctChange(prev, cur).value / 100.0) == cur as real
  {
    var p := prev as real;
    var c := cur as real;
    var q := c / p;
    assert PctChange(prev, cur).value == (q - 1.0) * 100.0;
    assert q * p == c;
    assert q > 1.0 <==> c > p by {
      if q > 1.0 { assert q * p > 1.0 * p; }
      if c > p { assert q * p > 1.0 * p; }
    }
    assert q == 1.0 <==> c == p;
  }

  // ---- Rows of the result ----

  /** One output row: `code`, the bar's columns, `pct_change`. */
  datatype Row = Row(code: string, bar: Bar, pctChange: Option<real>)

  function BarsOf(rows: seq<Row>): (bars: seq<Bar>)
    ensures |bars| == |rows|
  {
    seq(|rows|, i requires 0 <= i < |rows| => rows[i].bar)
  }

  /** Sort the bars, tag every row with `code`, derive pct_change after ordering. */
  function BuildSeries(bars: seq<Bar>, code: string): seq<Row>
  {
    var sorted := SortByTime(bars);
    seq(|sorted|, i requires 0 <= i < |sorted| =>
      Row(code, sorted[i], if i == 0 then None else PctChange(sorted[i - 1].close, sorted[i].close)))
  }

  /**
   * The series holds the same bars, ordered by time; every row carries the
   * same code; the first row has no percent change and each later row the
   * change of its close against the row before it.
   */
  lemma BuildSeriesCorrect(bars: seq<Bar>, code: string)
    ensures |BuildSeries(bars, code)| == |bars|
    ensures multiset(BarsOf(BuildSeries(bars, code))) == multiset(bars)
    ensures SortedByTime(BarsOf(BuildSeries(bars, code)))
    ensures forall i :: 0 <= i < |bars| ==> BuildSeries(bars, code)[i].code == code
    ensures bars != [] ==> BuildSeries(bars, code)[0].pctChange == None
    ensures forall i :: 1 <= i < |bars| ==>
              BuildSeries(bars, code)[i].pctChange
                == PctChange(BuildSeries(bars, code)[i - 1].bar.close, BuildSeries(bars, code)[i].bar.close)
  {
    SortByTimeCorrect(bars);
    assert BarsOf(BuildSeries(bars, code)) == SortByTime(bars);
  }

  /** A single bar makes a single row without a percent change. */
  lemma SingleBarSeries(b: Bar, code: string)
    ensures BuildSeries([b], code) == [Row(code, b, None)]
  {
    assert SortByTime([b]) == [b];
  }

  /** Where every close is positive, every row after the first has a defined percent change. */
  lemma PctChangeDefined(bars: seq<Bar>, code: string)
    requires forall b :: b in bars ==> b.close > 0
    ensures forall i :: 1 <= i < |bars| ==> BuildSeries(bars, code)[i].pctChange.Some?
  {
    SortByTimeCorrect(bars);
    var sorted := SortByTime(bars);
    forall i | 1 <= i < |bars|
      ensures BuildSeries(bars, code)[i].pctChange.Some?
    {
      assert sorted[i - 1] in multiset(sorted);
    }
  }

  // ---- Instrument code: `Path(file_path).stem` ----

  /** The characters after the last '/', the whole string when there is none. */
  function AfterLastSlash(p: string): (r: string)
    ensures '/' !in r
    ensures |r| <= |p| && r == p[|p| - |r|..]
  {
    if p == [] || p[|p| - 1] == '/' then []
    else AfterLastSlash(p[..|p| - 1]) + [p[|p| - 1]]
  }

  /**
   * `PurePosixPath(p).name`: the last component, empty components and "."
   * components being dropped as pathlib does when it parses a path.
   */
  function BaseName(p: string): (r: string)
    ensures '/' !in r && r != "."
    decreases |p|
  {
    if p == [] then []
    else if p[|p| - 1] == '/' then BaseName(p[..|p| - 1])
    else
      var last := AfterLastSlash(p);
      if last == "." then BaseName(p[..|p| - 1]) else last
  }

  /** Index of the last '.' in s, or -1 when there is none. */
  function RFindDot(s: string): (i: int)
    ensures -1 <= i < |s|
    ensures i >= 0 ==> s[i] == '.'
    ensures forall j :: i < j < |s| ==> s[j] != '.'
  {
    if s == [] then -1
    else if s[|s| - 1] == '.' then |s| - 1
    else RFindDot(s[..|s| - 1])
  }

  /**
   * `PurePath.stem`: the name without its last suffix; a dot that is the
   * first or the last character does not start a suffix.
   */
  function Stem(name: string): (r: string)
    ensures r <= name
  {
    var i := RFindDot(name);
    if 0 < i < |name| - 1 then name[..i] else name
  }

  /** The `code` column of every row of a file. */
  function InstrumentCode(path: string): string
  {
    Stem(BaseName(path))
  }

  lemma {:induction false} AfterLastSlashOfFile(dir: string, file: string)
    requires '/' !in file
    ensures AfterLastSlash(dir + "/" + file) == file
    decreases |file|
  {
    var p := dir + "/" + file;
    if file != [] {
      assert p[..|p| - 1] == dir + "/" + file[..|file| - 1];
      AfterLastSlashOfFile(dir, file[..|file| - 1]);
      assert file == file[..|file| - 1] + [file[|file| - 1]];
    }
  }

  /** The base name of `dir/file` is `file`. */
  lemma BaseNameOfFile(dir: string, file: string)
    requires file != "" && file != "." && '/' !in file
    ensures BaseName(dir + "/" + file) == file
  {
    AfterLastSlashOfFile(dir, file);
  }

  /** A name without a dot is its own stem. */
  lemma StemWithoutDot(name: string)
    requires '.' !in name
    ensures Stem(name) == name
  {
  }

  /** The stem of `base.ext` is `base`, when the extension holds no dot. */
  lemma StemDropsExtension(base: string, ext: string)
    requires base != "" && ext != "" && '.' !in ext
    ensures Stem(base + "." + ext) == base
  {
    var name := base + "." + ext;
    var i := RFindDot(name);
    assert name[|base|] == '.';
    assert name[..|base|] == base;
  }

  /** The instrument code of a file in one of the repository's data directories. */
  lemma InstrumentCodeExample()
    ensures InstrumentCode("data/szdayK/000001.DAT") == "000001"
  {
    BaseNameOfFile("data/szdayK", "000001.DAT");
    assert "data/szdayK/000001.DAT" == "data/szdayK" + "/" + "000001.DAT";
    StemDropsExtension("000001", "DAT");
    assert "000001.DAT" == "000001" + "." + "DAT";
  }
}
