/**
 * The companion log `PASetup.log`: the NonCVMInstall timing is read from the
 * newest of its last ten lines that reports it. Finding the number in a line
 * (`took <digits and dots> ms`) and converting it are given as functions.
 */
module Companion {
  import opened Options
  import opened Text
  import opened Seqs

  /** How many lines at the end of the log are looked at. */
  const TailLength: nat := 10

  /** `lines[-10:]`: the last ten lines, or all of them when there are fewer. */
  function Tail(lines: seq<string>): (t: seq<string>)
    ensures |t| == if |lines| <= TailLength then |lines| else TailLength
    ensures t == lines[|lines| - |t|..]
  {
    if |lines| <= TailLength then lines else lines[|lines| - TailLength..]
  }

  /** The substring test a line must pass before the number is looked for. */
  predicate IsCandidate(line: string)
  {
    Contains(line, "NonCVMInstall_total took") && Contains(line, "ms")
  }

  /** A line that passes the test and in which the number pattern is found. */
  predicate Hit(line: string, tookNumber: string -> Option<string>)
  {
    IsCandidate(line) && tookNumber(line).Some?
  }

  /**
   * The scan from the last line back: the first hit decides, giving the
   * converted number, or nothing when the conversion fails (the failure ends
   * the whole read); no hit gives nothing.
   */
  function ScanNewestFirst(lines: seq<string>, tookNumber: string -> Option<string>,
                           parseNumber: string -> Option<int>): (t: Option<int>)
    ensures t.Some? ==> exists k :: 0 <= k < |lines| && Hit(lines[k], tookNumber)
                                    && t == parseNumber(tookNumber(lines[k]).value)
    decreases |lines|
  {
    if lines == [] then None
    else
      var line := lines[|lines| - 1];
      if Hit(line, tookNumber) then parseNumber(tookNumber(line).value)
      else ScanNewestFirst(lines[..|lines| - 1], tookNumber, parseNumber)
  }

  /**
   * The timing `extract_pasetup_timing` reports for a log with these lines:
   * the number of the newest hit among the last ten lines, and nothing when
   * none of them is a hit.
   */
  function CompanionTiming(lines: seq<string>, tookNumber: string -> Option<string>,
                           parseNumber: string -> Option<int>): (t: Option<int>)
    ensures t.Some? ==> exists k :: |lines| - TailLength <= k < |lines| && 0 <= k && Hit(lines[k], tookNumber)
                                    && t == parseNumber(tookNumber(lines[k]).value)
    ensures forall k :: |lines| - TailLength <= k && NewestHit(lines, tookNumber, k) ==>
                          t == parseNumber(tookNumber(lines[k]).value)
    ensures (forall j :: |lines| - TailLength <= j < |lines| && 0 <= j ==> !Hit(lines[j], tookNumber)) ==> t.None?
  {
    TailScan(lines, tookNumber, parseNumber);
    TailNewestHits(lines, tookNumber, parseNumber);
    ScanNewestFirst(Tail(lines), tookNumber, parseNumber)
  }

  /** What the scan of the tail says, read back on the whole list of lines. */
  lemma TailScan(lines: seq<string>, tookNumber: string -> Option<string>, parseNumber: string -> Option<int>)
    ensures var t := ScanNewestFirst(Tail(lines), tookNumber, parseNumber);
      && (t.Some? ==> exists k :: |lines| - TailLength <= k < |lines| && 0 <= k && Hit(lines[k], tookNumber)
                                  && t == parseNumber(tookNumber(lines[k]).value))
      && ((forall j :: |lines| - TailLength <= j < |lines| && 0 <= j ==> !Hit(lines[j], tookNumber)) ==> t.None?)
  {
    var tail := Tail(lines);
    var off := |lines| - |tail|;
    var t := ScanNewestFirst(tail, tookNumber, parseNumber);
    if t.Some? {
      var k :| 0 <= k < |tail| && Hit(tail[k], tookNumber) && t == parseNumber(tookNumber(tail[k]).value);
      assert tail[k] == lines[off + k];
    }
    if forall j :: |lines| - TailLength <= j < |lines| && 0 <= j ==> !Hit(lines[j], tookNumber) {
      forall j | 0 <= j < |tail| ensures !Hit(tail[j], tookNumber) {
        assert tail[j] == lines[off + j];
      }
      NoHitNoTiming(tail, tookNumber, parseNumber);
    }
  }

  /** The newest hit of the whole log, when it lies in the tail, decides the scan of the tail. */
  lemma TailNewestHits(lines: seq<string>, tookNumber: string -> Option<string>, parseNumber: string -> Option<int>)
    ensures forall k :: |lines| - TailLength <= k && NewestHit(lines, tookNumber, k) ==>
                          ScanNewestFirst(Tail(lines), tookNumber, parseNumber) == parseNumber(tookNumber(lines[k]).value)
  {
    forall k | |lines| - TailLength <= k && NewestHit(lines, tookNumber, k)
      ensures ScanNewestFirst(Tail(lines), tookNumber, parseNumber) == parseNumber(tookNumber(lines[k]).value)
    {
      TailNewestHit(lines, tookNumber, parseNumber, k);
    }
  }

  /** One newest hit in the tail, read back on the tail's own indices. */
  lemma TailNewestHit(lines: seq<string>, tookNumber: string -> Option<string>, parseNumber: string -> Option<int>,
                      k: int)
    requires |lines| - TailLength <= k && NewestHit(lines, tookNumber, k)
    ensures ScanNewestFirst(Tail(lines), tookNumber, parseNumber) == parseNumber(tookNumber(lines[k]).value)
  {
    var tail := Tail(lines);
    var off := |lines| - |tail|;
    assert tail[k - off] == lines[k];
    forall j | k - off < j < |tail| ensures !Hit(tail[j], tookNumber) {
      assert tail[j] == lines[off + j];
    }
    assert NewestHit(tail, tookNumber, k - off);
    NewestHitDecides(tail, tookNumber, parseNumber, k - off);
  }

  /** `lines[k]` is a hit and no line after it is. */
  ghost predicate NewestHit(lines: seq<string>, tookNumber: string -> Option<string>, k: int)
  {
    0 <= k < |lines| && Hit(lines[k], tookNumber) && forall j :: k < j < |lines| ==> !Hit(lines[j], tookNumber)
  }

  /** The newest hit decides the outcome, whatever the lines before it say. */
  lemma {:induction false} NewestHitDecides(lines: seq<string>, tookNumber: string -> Option<string>,
                                            parseNumber: string -> Option<int>, k: int)
    requires NewestHit(lines, tookNumber, k)
    ensures ScanNewestFirst(lines, tookNumber, parseNumber) == parseNumber(tookNumber(lines[k]).value)
    decreases |lines|
  {
    if k < |lines| - 1 {
      var prefix := lines[..|lines| - 1];
      assert NewestHit(prefix, tookNumber, k) by {
        forall j | k < j < |prefix| ensures !Hit(prefix[j], tookNumber) {
          assert prefix[j] == lines[j];
        }
      }
      NewestHitDecides(prefix, tookNumber, parseNumber, k);
    }
  }

  /** Without a hit the scan reports nothing. */
  lemma {:induction false} NoHitNoTiming(lines: seq<string>, tookNumber: string -> Option<string>,
                                         parseNumber: string -> Option<int>)
    requires forall j :: 0 <= j < |lines| ==> !Hit(lines[j], tookNumber)
    ensures ScanNewestFirst(lines, tookNumber, parseNumber).None?
    decreases |lines|
  {
    if lines != [] {
      var prefix := lines[..|lines| - 1];
      assert forall j :: 0 <= j < |prefix| ==> prefix[j] == lines[j];
      NoHitNoTiming(prefix, tookNumber, parseNumber);
    }
  }

  /** A reported timing always comes from the newest hit. */
  lemma {:induction false} TimingFromNewestHit(lines: seq<string>, tookNumber: string -> Option<string>,
                                               parseNumber: string -> Option<int>)
    requires ScanNewestFirst(lines, tookNumber, parseNumber).Some?
    ensures exists k :: NewestHit(lines, tookNumber, k)
                        && ScanNewestFirst(lines, tookNumber, parseNumber) == parseNumber(tookNumber(lines[k]).value)
    decreases |lines|
  {
    var prefix := lines[..|lines| - 1];
    var last := |lines| - 1;
    if Hit(lines[last], tookNumber) {
      assert NewestHit(lines, tookNumber, last);
    } else {
      assert ScanNewestFirst(lines, tookNumber, parseNumber) == ScanNewestFirst(prefix, tookNumber, parseNumber);
      TimingFromNewestHit(prefix, tookNumber, parseNumber);
      var k :| NewestHit(prefix, tookNumber, k)
               && ScanNewestFirst(prefix, tookNumber, parseNumber) == parseNumber(tookNumber(prefix[k]).value);
      NewestHitExtend(lines, tookNumber, k);
    }
  }

  /** A newest hit stays the newest when a line that is not a hit is added after it. */
  lemma NewestHitExtend(lines: seq<string>, tookNumber: string -> Option<string>, k: int)
    requires lines != [] && !Hit(lines[|lines| - 1], tookNumber)
    requires NewestHit(lines[..|lines| - 1], tookNumber, k)
    ensures NewestHit(lines, tookNumber, k) && lines[k] == lines[..|lines| - 1][k]
  {
    var prefix := lines[..|lines| - 1];
    forall j | k < j < |lines| ensures !Hit(lines[j], tookNumber) {
      if j < |lines| - 1 {
        assert lines[j] == prefix[j];
      }
    }
  }

  /** Only the last ten lines matter: lines before them never change the timing. */
  lemma OnlyTailMatters(older: seq<string>, lines: seq<string>, tookNumber: string -> Option<string>,
                        parseNumber: string -> Option<int>)
    requires |lines| >= TailLength
    ensures CompanionTiming(older + lines, tookNumber, parseNumber) == CompanionTiming(lines, tookNumber, parseNumber)
  {
    assert Tail(older + lines) == Tail(lines);
  }

  /**
   * `extract_pasetup_timing` over the lines of the log: walk the last ten
   * lines from the newest, and return at the first line that passes the
   * substring test and holds the number pattern.
   */
  method ExtractPaSetupTiming(lines: seq<string>, tookNumber: string -> Option<string>,
                              parseNumber: string -> Option<int>)
    returns (timing: Option<int>)
    ensures timing == CompanionTiming(lines, tookNumber, parseNumber)
  {
    var tail := Tail(lines);
    var i := |tail|;
    PrefixAll(tail);
    while i > 0
      invariant 0 <= i <= |tail|
      invariant ScanNewestFirst(tail[..i], tookNumber, parseNumber) == CompanionTiming(lines, tookNumber, parseNumber)
    {
      var line := tail[i - 1];
      PrefixStep(tail, i - 1);
      if Contains(line, "NonCVMInstall_total took") && Contains(line, "ms") {
        var found := tookNumber(line);
        if found.Some? {
          return parseNumber(found.value);
        }
      }
      i := i - 1;
    }
    return None;
  }
}
