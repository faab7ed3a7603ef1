/**
 * FormatDetector: `DATParser._detect_data_type`. A file is intraday when its
 * lower-cased path contains "5m" or "min", daily otherwise.
 */
module FormatDetector {

  datatype Kind = Daily | Intraday

  /** `str.lower` restricted to ASCII letters. */
  function LowerChar(c: char): char
  {
    if 'A' <= c <= 'Z' then (c as int + 32) as char else c
  }

  function Lower(s: string): (r: string)
    ensures |r| == |s|
    ensures forall i :: 0 <= i < |s| ==> r[i] == LowerChar(s[i])
  {
    seq(|s|, i requires 0 <= i < |s| => LowerChar(s[i]))
  }

  /** `sub` occurs in `s` starting at index i. */
  predicate OccursAt(s: string, sub: string, i: int)
  {
    0 <= i && i + |sub| <= |s| && s[i..i + |sub|] == sub
  }

  /** Python's `sub in s`. */
  function Contains(s: string, sub: string): (r: bool)
    ensures r <==> exists i :: OccursAt(s, sub, i)
    decreases |s|
  {
    if |sub| > |s| then false
    else if s[..|sub|] == sub then
      assert OccursAt(s, sub, 0);
      true
    else
      var r := Contains(s[1..], sub);
      assert r ==> exists i :: OccursAt(s, sub, i) by {
        if r {
          var j :| OccursAt(s[1..], sub, j);
          assert s[j + 1..j + 1 + |sub|] == s[1..][j..j + |sub|];
          assert OccursAt(s, sub, j + 1);
        }
      }
      assert (exists i :: OccursAt(s, sub, i)) ==> r by {
        if i :| OccursAt(s, sub, i) {
          assert i != 0;
          assert s[1..][i - 1..i - 1 + |sub|] == s[i..i + |sub|];
          assert OccursAt(s[1..], sub, i - 1);
        }
      }
      r
  }

  /** `5m` or `5M` starts at index i of the path. */
  predicate FiveMinuteHintAt(path: string, i: int)
  {
    0 <= i && i + 2 <= |path| && path[i] == '5' && LowerChar(path[i + 1]) == 'm'
  }

  /** `min` in any letter case starts at index i of the path. */
  predicate MinuteHintAt(path: string, i: int)
  {
    0 <= i && i + 3 <= |path| && LowerChar(path[i]) == 'm' && LowerChar(path[i + 1]) == 'i'
      && LowerChar(path[i + 2]) == 'n'
  }

  lemma FiveMinuteHintLower(path: string, i: int)
    ensures OccursAt(Lower(path), "5m", i) <==> FiveMinuteHintAt(path, i)
  {
    var lower := Lower(path);
    if 0 <= i && i + 2 <= |path| {
      assert LowerChar('5') == '5';
      assert lower[i..i + 2] == [lower[i], lower[i + 1]];
    }
  }

  lemma MinuteHintLower(path: string, i: int)
    ensures OccursAt(Lower(path), "min", i) <==> MinuteHintAt(path, i)
  {
    var lower := Lower(path);
    if 0 <= i && i + 3 <= |path| {
      assert lower[i..i + 3] == [lower[i], lower[i + 1], lower[i + 2]];
    }
  }

  /**
   * `_detect_data_type(path)`: true exactly when the path holds "5m" or
   * "min" in any letter case.
   */
  function IsIntraday(path: string): (r: bool)
    ensures r <==> exists i :: FiveMinuteHintAt(path, i) || MinuteHintAt(path, i)
  {
    var lower := Lower(path);
    forall i ensures OccursAt(lower, "5m", i) <==> FiveMinuteHintAt(path, i) {
      FiveMinuteHintLower(path, i);
    }
    forall i ensures OccursAt(lower, "min", i) <==> MinuteHintAt(path, i) {
      MinuteHintLower(path, i);
    }
    Contains(lower, "5m") || Contains(lower, "min")
  }

  /** The kind of every bar of the file at `path`. */
  function KindOf(path: string): (k: Kind)
    ensures k == Intraday <==> exists i :: FiveMinuteHintAt(path, i) || MinuteHintAt(path, i)
  {
    if IsIntraday(path) then Intraday else Daily
  }

  /** Detection ignores letter case: a path and its lower-cased form agree. */
  lemma KindIgnoresCase(path: string)
    ensures KindOf(Lower(path)) == KindOf(path)
  {
    var lower := Lower(path);
    forall c: char ensures LowerChar(LowerChar(c)) == LowerChar(c) { }
    if i :| FiveMinuteHintAt(path, i) || MinuteHintAt(path, i) {
      assert FiveMinuteHintAt(lower, i) || MinuteHintAt(lower, i);
    }
    if i :| FiveMinuteHintAt(lower, i) || MinuteHintAt(lower, i) {
      assert FiveMinuteHintAt(path, i) || MinuteHintAt(path, i);
    }
  }

  /**
   * Paths of the kinds the repository's batch driver reads (`sh5mK`,
   * `szdayK`), and a minute hint written in capitals.
   */
  lemma DirectoryHints()
    ensures KindOf("data/sh5mK/600000.DAT") == Intraday
    ensures KindOf("data/1MIN/600000.DAT") == Intraday
    ensures KindOf("data/szdayK/000001.DAT") == Daily
  {
    assert FiveMinuteHintAt("data/sh5mK/600000.DAT", 7);
    assert MinuteHintAt("data/1MIN/600000.DAT", 6);
    var p := "data/szdayK/000001.DAT";
    assert forall i :: 0 <= i < |p| ==> LowerChar(p[i]) != 'm';
  }
}
