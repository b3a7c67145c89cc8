/** The capture analysis: one pass over the serial lines of a reset, and how analyses of two captures
    combine. The patterns are left abstract: a line comes with what each of them finds in it, where the
    empty text means that nothing is found. */
module CaptureFold {

  // The boot line's four groups; the first always has characters, so the empty fields of a fresh
  // record stand for NoBoot.
  datatype RstBoot = NoBoot | Boot(rstRaw: string, rstName: string, bootRaw: string, bootName: string)

  datatype Line = Line(
    ts: real, banner: bool, rst: RstBoot, flash: string, psram: string,
    testOk: bool, testFail: bool, phy: bool, panic: bool, wdt: bool, brownout: bool, download: bool)

  datatype PsramTest = NotObserved | Passed | FailedTest

  // When the radio calibration warning was first seen, if at all.
  datatype Phy = Absent | At(time: real)

  datatype Flags = Flags(panic: bool, wdt: bool, brownout: bool, download: bool)

  const NO_FLAGS := Flags(false, false, false, false)

  /** What a capture shows; the time of the warning is relative to the start in a report and as read
      otherwise. */
  datatype Findings = Findings(
    boot: RstBoot, flashSize: string, psramFound: string, psramTest: PsramTest, phy: Phy, flags: Flags)

  const NOTHING := Findings(NoBoot, "", "", NotObserved, Absent, NO_FLAGS)

  datatype Analysis = Analysis(findings: Findings, duplicateResets: nat)

  /** What has to be kept of a capture for its analysis to be continued. */
  datatype Summary = Summary(findings: Findings, banners: nat)

  const EMPTY := Summary(NOTHING, 0)

  function FirstText(a: string, b: string): string {
    if a != "" then a else b
  }

  function FirstBoot(a: RstBoot, b: RstBoot): RstBoot {
    if a != NoBoot then a else b
  }

  function LastTest(a: PsramTest, b: PsramTest): PsramTest {
    if b != NotObserved then b else a
  }

  function FirstPhy(a: Phy, b: Phy): Phy {
    if a != Absent then a else b
  }

  function Either(a: Flags, b: Flags): Flags {
    Flags(a.panic || b.panic, a.wdt || b.wdt, a.brownout || b.brownout, a.download || b.download)
  }

  /** First-wins, last-wins and or-ed parts. */
  function Combine(a: Findings, b: Findings): Findings {
    Findings(FirstBoot(a.boot, b.boot), FirstText(a.flashSize, b.flashSize), FirstText(a.psramFound, b.psramFound),
             LastTest(a.psramTest, b.psramTest), FirstPhy(a.phy, b.phy), Either(a.flags, b.flags))
  }

  /** The summary of one capture followed by another. */
  function Merge(a: Summary, b: Summary): Summary {
    Summary(Combine(a.findings, b.findings), a.banners + b.banners)
  }

  function TestOf(l: Line): PsramTest {
    if l.testOk then Passed else if l.testFail then FailedTest else NotObserved
  }

  function FlagsOf(l: Line): Flags {
    Flags(l.panic, l.wdt, l.brownout, l.download)
  }

  /** A ROM banner line counts as a banner and as nothing else. */
  function OfLine(l: Line): Summary {
    if l.banner then Summary(NOTHING, 1)
    else Summary(Findings(l.rst, l.flash, l.psram, TestOf(l), if l.phy then At(l.ts) else Absent, FlagsOf(l)), 0)
  }

  function Summarize(lines: seq<Line>): Summary {
    if lines == [] then EMPTY else Merge(OfLine(lines[0]), Summarize(lines[1..]))
  }

  function Since(phy: Phy, t0: real): Phy {
    match phy
    case Absent => Absent
    case At(time) => At(time - t0)
  }

  function Report(s: Summary, t0: real): Analysis {
    Analysis(s.findings.(phy := Since(s.findings.phy, t0)), if s.banners > 1 then s.banners - 1 else 0)
  }

  /** The summary of one capture after another is determined by their summaries, for every split point. */
  lemma {:induction false} SummariesMerge(a: seq<Line>, b: seq<Line>)
    ensures Summarize(a + b) == Merge(Summarize(a), Summarize(b))
  {
    if a == [] {
      assert a + b == b;
      NothingToCombine(Summarize(b).findings);
    } else {
      assert (a + b)[1..] == a[1..] + b;
      SummariesMerge(a[1..], b);
      CombineAssociates(OfLine(a[0]).findings, Summarize(a[1..]).findings, Summarize(b).findings);
    }
  }

  lemma CombineAssociates(a: Findings, b: Findings, c: Findings)
    ensures Combine(Combine(a, b), c) == Combine(a, Combine(b, c))
  {
  }

  lemma NothingToCombine(a: Findings)
    ensures Combine(NOTHING, a) == a == Combine(a, NOTHING)
  {
  }

  lemma NextLine(lines: seq<Line>, i: nat)
    requires i < |lines|
    ensures Summarize(lines[..i + 1]) == Merge(Summarize(lines[..i]), OfLine(lines[i]))
  {
    assert lines[..i + 1] == lines[..i] + [lines[i]];
    SummariesMerge(lines[..i], [lines[i]]);
    OneLine(lines[i]);
  }

  lemma OneLine(l: Line)
    ensures Summarize([l]) == OfLine(l)
  {
    assert [l][1..] == [];
    NothingToCombine(OfLine(l).findings);
  }

  /** The result record, updated line by line. */
  method AnalyzeCapture(lines: seq<Line>, t0: real) returns (result: Analysis)
    ensures result == Report(Summarize(lines), t0)
  {
    var findings := NOTHING;
    var bannerCount := 0;
    var i := 0;
    while i < |lines|
      invariant 0 <= i <= |lines|
      invariant Reflects(findings, Summarize(lines[..i]).findings, t0)
      invariant bannerCount == Summarize(lines[..i]).banners
    {
      var line := lines[i];
      NextLine(lines, i);
      ghost var soFar := Summarize(lines[..i]).findings;
      i := i + 1;
      if line.banner {
        bannerCount := bannerCount + 1;
        NothingToCombine(soFar);
        continue;
      }
      findings := NoteFirsts(findings, line);
      findings := NoteTestAndWarning(findings, line, t0);
      var flags := NoteFlags(findings.flags, line);
      findings := findings.(flags := flags);
    }
    assert lines[..i] == lines;
    result := Analysis(findings, if bannerCount > 1 then bannerCount - 1 else 0);
  }

  /** The findings of the report agree with those of the summary. */
  ghost predicate Reflects(findings: Findings, s: Findings, t0: real) {
    findings == s.(phy := Since(s.phy, t0))
  }

  /** The part of a line's update that keeps the first of a kind. */
  method NoteFirsts(was: Findings, line: Line) returns (findings: Findings)
    ensures findings == was.(boot := FirstBoot(was.boot, line.rst), flashSize := FirstText(was.flashSize, line.flash),
                             psramFound := FirstText(was.psramFound, line.psram))
  {
    findings := was;
    if findings.boot == NoBoot {
      findings := findings.(boot := line.rst);
    }
    if findings.flashSize == "" && line.flash != "" {
      findings := findings.(flashSize := line.flash);
    }
    if findings.psramFound == "" && line.psram != "" {
      findings := findings.(psramFound := line.psram);
    }
  }

  /** The part that keeps the last outcome of the memory test, and the first warning. */
  method NoteTestAndWarning(was: Findings, line: Line, t0: real) returns (findings: Findings)
    ensures findings == was.(psramTest := LastTest(was.psramTest, TestOf(line)),
                             phy := FirstPhy(was.phy, if line.phy then At(line.ts - t0) else Absent))
  {
    findings := was;
    if line.testOk {
      findings := findings.(psramTest := Passed);
    } else if line.testFail {
      findings := findings.(psramTest := FailedTest);
    }
    if line.phy && findings.phy == Absent {
      findings := findings.(phy := At(line.ts - t0));
    }
  }

  /** The part that raises flags. */
  method NoteFlags(was: Flags, line: Line) returns (flags: Flags)
    ensures flags == Either(was, FlagsOf(line))
  {
    flags := was;
    if line.panic {
      flags := flags.(panic := true);
    }
    if line.wdt {
      flags := flags.(wdt := true);
    }
    if line.brownout {
      flags := flags.(brownout := true);
    }
    if line.download {
      flags := flags.(download := true);
    }
  }

  /** Which line the boot fields are from: the first that is no banner and has them. */
  lemma {:induction false} BootFieldsAreFirst(lines: seq<Line>, t0: real) returns (i: nat)
    ensures i <= |lines| && forall j :: 0 <= j < i ==> lines[j].banner || lines[j].rst == NoBoot
    ensures i == |lines| ==> Report(Summarize(lines), t0).findings.boot == NoBoot
    ensures i < |lines| ==> !lines[i].banner && Report(Summarize(lines), t0).findings.boot == lines[i].rst != NoBoot
  {
    if lines == [] || OfLine(lines[0]).findings.boot != NoBoot {
      i := 0;
    } else {
      var k := BootFieldsAreFirst(lines[1..], t0);
      i := k + 1;
    }
  }

  predicate Tests(l: Line) {
    !l.banner && (l.testOk || l.testFail)
  }

  /** And which the memory test's outcome is from: the last that reports one. */
  lemma {:induction false} MemoryTestIsLast(lines: seq<Line>, t0: real) returns (i: int)
    ensures -1 <= i < |lines| && forall j :: i < j < |lines| ==> !Tests(lines[j])
    ensures i == -1 ==> Report(Summarize(lines), t0).findings.psramTest == NotObserved
    ensures i >= 0 ==>
              && Tests(lines[i])
              && Report(Summarize(lines), t0).findings.psramTest == if lines[i].testOk then Passed else FailedTest
  {
    if lines == [] {
      i := -1;
    } else {
      i := MemoryTestIsLast(lines[1..], t0);
      i := if i >= 0 || Tests(lines[0]) then i + 1 else -1;
    }
  }

  /** The flash size is from the first line that is no banner and gives one. */
  lemma {:induction false} FlashSizeIsFirst(lines: seq<Line>, t0: real) returns (i: nat)
    ensures i <= |lines| && forall j :: 0 <= j < i ==> lines[j].banner || lines[j].flash == ""
    ensures i == |lines| ==> Report(Summarize(lines), t0).findings.flashSize == ""
    ensures i < |lines| ==> !lines[i].banner && Report(Summarize(lines), t0).findings.flashSize == lines[i].flash != ""
  {
    if lines == [] || OfLine(lines[0]).findings.flashSize != "" {
      i := 0;
    } else {
      var k := FlashSizeIsFirst(lines[1..], t0);
      i := k + 1;
      assert forall j :: 0 < j < i ==> lines[j] == lines[1..][j - 1];
    }
  }

  /** So is the memory found. */
  lemma {:induction false} MemoryFoundIsFirst(lines: seq<Line>, t0: real) returns (i: nat)
    ensures i <= |lines| && forall j :: 0 <= j < i ==> lines[j].banner || lines[j].psram == ""
    ensures i == |lines| ==> Report(Summarize(lines), t0).findings.psramFound == ""
    ensures i < |lines| ==> !lines[i].banner && Report(Summarize(lines), t0).findings.psramFound == lines[i].psram != ""
  {
    if lines == [] || OfLine(lines[0]).findings.psramFound != "" {
      i := 0;
    } else {
      var k := MemoryFoundIsFirst(lines[1..], t0);
      i := k + 1;
      assert forall j :: 0 < j < i ==> lines[j] == lines[1..][j - 1];
    }
  }

  /** The warning's time is that of the first line that is no banner and shows it. */
  lemma {:induction false} WarningIsFirst(lines: seq<Line>, t0: real) returns (i: nat)
    ensures i <= |lines| && forall j :: 0 <= j < i ==> lines[j].banner || !lines[j].phy
    ensures i == |lines| ==> Report(Summarize(lines), t0).findings.phy == Absent
    ensures i < |lines| ==> !lines[i].banner && lines[i].phy && Report(Summarize(lines), t0).findings.phy == At(lines[i].ts - t0)
  {
    if lines == [] || OfLine(lines[0]).findings.phy != Absent {
      i := 0;
    } else {
      var k := WarningIsFirst(lines[1..], t0);
      i := k + 1;
    }
  }

  /** Each flag is raised exactly when some line that is no banner raises it. */
  lemma {:induction false} FlagsAreAnyLines(lines: seq<Line>, t0: real)
    ensures var flags := Report(Summarize(lines), t0).findings.flags;
            && (flags.panic <==> exists l :: l in lines && !l.banner && l.panic)
            && (flags.wdt <==> exists l :: l in lines && !l.banner && l.wdt)
            && (flags.brownout <==> exists l :: l in lines && !l.banner && l.brownout)
            && (flags.download <==> exists l :: l in lines && !l.banner && l.download)
  {
    if lines != [] {
      FlagsAreAnyLines(lines[1..], t0);
      assert forall l :: l in lines <==> l == lines[0] || l in lines[1..];
    }
  }

  /** The places of the banner lines. */
  function BannersIn(lines: seq<Line>): set<nat> {
    set i: nat | i < |lines| && lines[i].banner
  }

  /** Every banner line counts once ... */
  lemma {:induction false} BannersAreCounted(lines: seq<Line>)
    ensures Summarize(lines).banners == |BannersIn(lines)|
  {
    if lines == [] {
      assert BannersIn(lines) == {};
    } else {
      var n := |lines| - 1;
      BannersAreCounted(lines[..n]);
      NextLine(lines, n);
      assert lines[..n + 1] == lines;
      LastBanner(lines, n);
    }
  }

  lemma LastBanner(lines: seq<Line>, n: nat)
    requires |lines| == n + 1
    ensures |BannersIn(lines)| == |BannersIn(lines[..n])| + if lines[n].banner then 1 else 0
  {
    if lines[n].banner {
      assert BannersIn(lines) == BannersIn(lines[..n]) + {n};
    } else {
      assert BannersIn(lines) == BannersIn(lines[..n]);
    }
  }

  /** ... and all but one of them as a duplicate reset. */
  lemma DuplicatesAreTheOtherBanners(lines: seq<Line>, t0: real)
    ensures Report(Summarize(lines), t0).duplicateResets == if BannersIn(lines) == {} then 0 else |BannersIn(lines)| - 1
  {
    BannersAreCounted(lines);
  }

  /** Finished analyses combine but for one figure: the findings always, the duplicate resets exactly
      when one of the two captures has no banner, and otherwise the sum is one short. */
  lemma {:induction false} AnalysesCombineExactly(a: seq<Line>, b: seq<Line>, t0: real)
    ensures var ra, rb, r := Report(Summarize(a), t0), Report(Summarize(b), t0), Report(Summarize(a + b), t0);
            && r.findings == Combine(ra.findings, rb.findings)
            && (r.duplicateResets == ra.duplicateResets + rb.duplicateResets <==>
                  BannersIn(a) == {} || BannersIn(b) == {})
            && (BannersIn(a) != {} && BannersIn(b) != {} ==>
                  r.duplicateResets == ra.duplicateResets + rb.duplicateResets + 1)
  {
    SummariesMerge(a, b);
    BannersAreCounted(a);
    BannersAreCounted(b);
  }

  const BANNER := Line(0.0, true, NoBoot, "", "", false, false, false, false, false, false, false)

  /** So the finished analyses alone do not merge: they forget whether there was one banner or none. */
  lemma AnalysesDoNotMerge(t0: real)
    ensures Report(Summarize([]), t0) == Report(Summarize([BANNER]), t0)
    ensures Report(Summarize([] + [BANNER]), t0) != Report(Summarize([BANNER] + [BANNER]), t0)
  {
    OneLine(BANNER);
    assert [] + [BANNER] == [BANNER];
    SummariesMerge([BANNER], [BANNER]);
  }
}
