/**
  The part of the scanner screen's analysis step that derives data: the
  scan result built from one detection pass and its tri-state verdict.
  Camera access, navigation and alerts are not part of this model.
*/
module ScannerScreen {
  import opened Types
  import opened AiService

  /**
    The verdict for `present` present entries among `total` listed ones:
    conforming at 90% and above, partial from 70%, non-conforming below.
    The thresholds are compared by cross-multiplication, exactly.
  */
  function VerdictOf(present: nat, total: nat): Verdict
  {
    if 10 * present >= 9 * total then Conforming
    else if 10 * present >= 7 * total then Partial
    else NonConforming
  }

  /** The same rule over reals, as the screen writes it: `present >= total * 0.9`. */
  function RatioVerdict(present: nat, total: nat): Verdict
  {
    if present as real >= total as real * 0.9 then Conforming
    else if present as real >= total as real * 0.7 then Partial
    else NonConforming
  }

  /** Verdicts ordered from worst to best. */
  function Rank(v: Verdict): nat
  {
    match v
    case NonConforming => 0
    case Partial => 1
    case Conforming => 2
  }

  /**
    The verdict of a detection pass: the present count is taken over the
    detector's own list and compared with that list's length, not with a
    reference count.
  */
  function ScanVerdict(instruments: seq<Instrument>): (v: Verdict)
    ensures v == Conforming <==> 10 * PresentCount(instruments) >= 9 * |instruments|
    ensures v == Partial
      <==> 7 * |instruments| <= 10 * PresentCount(instruments) < 9 * |instruments|
    ensures v == NonConforming <==> 10 * PresentCount(instruments) < 7 * |instruments|
    ensures |instruments| == 0 ==> v == Conforming
  {
    VerdictOf(PresentCount(instruments), |instruments|)
  }

  /** The integer thresholds agree with the real-valued comparison for every count. */
  lemma VerdictMatchesRatio(present: nat, total: nat)
    ensures VerdictOf(present, total) == RatioVerdict(present, total)
  {
    var p, t := present as real, total as real;
    assert (10 * present >= 9 * total) == (p >= t * 0.9);
    assert (10 * present >= 7 * total) == (p >= t * 0.7);
  }

  /** For a non-empty list the verdict follows the present ratio p/n against 0.9 and 0.7. */
  lemma VerdictByPresentRatio(present: nat, total: nat)
    requires total > 0
    ensures VerdictOf(present, total) == Conforming <==> present as real / total as real >= 0.9
    ensures VerdictOf(present, total) == Partial
      <==> 0.7 <= present as real / total as real < 0.9
    ensures VerdictOf(present, total) == NonConforming <==> present as real / total as real < 0.7
  {
    var p, t := present as real, total as real;
    RatioAtLeast(p, t, 0.9);
    RatioAtLeast(p, t, 0.7);
  }

  lemma RatioAtLeast(p: real, t: real, c: real)
    requires t > 0.0
    ensures p / t >= c <==> p >= c * t
  {
    var ratio := p / t;
    assert ratio * t == p;
    assert ratio >= c ==> ratio * t >= c * t;
    assert ratio < c ==> ratio * t < c * t;
  }

  /** With the list length fixed, more present entries never lower the verdict. */
  lemma VerdictMonotone(p1: nat, p2: nat, total: nat)
    requires p1 <= p2
    ensures Rank(VerdictOf(p1, total)) <= Rank(VerdictOf(p2, total))
  {
  }

  /**
    The scan result the analysis step builds from a detection pass. The
    identifier and the fallback kit identifier are made from two clock
    readings, passed in; `routeKitId` is the kit the screen was opened
    for, if any. The score is computed against an empty reference list.
  */
  function AnalyzeResult(idClock: string, kitClock: string, routeKitId: Option<string>,
                         imageUri: string, detection: seq<Instrument>, timestamp: string): (r: ScanResult)
    ensures r.id == "scan-" + idClock
    ensures r.kitId == if routeKitId.Some? && routeKitId.value != "" then routeKitId.value else "kit-" + kitClock
    ensures r.imageUri == imageUri && r.timestamp == timestamp
    ensures r.detectedInstruments == detection
    ensures r.conformityScore == 100
    ensures r.status == VerdictOf(PresentCount(detection), |detection|)
  {
    var kitId := if routeKitId.Some? && routeKitId.value != "" then routeKitId.value else "kit-" + kitClock;
    ScanResult("scan-" + idClock, kitId, imageUri, detection,
               ConformityScore(detection, []), timestamp, ScanVerdict(detection))
  }

  /**
    The stored score and the stored verdict can disagree: one instrument
    the detector reports missing gives score 100 and verdict non-conforming.
  */
  lemma ScoreAndVerdictDisagree(idClock: string, kitClock: string, imageUri: string,
                                timestamp: string, inst: Instrument)
    requires inst.status == Missing
    ensures var r := AnalyzeResult(idClock, kitClock, None, imageUri, [inst], timestamp);
      r.conformityScore == 100 && r.status == NonConforming
  {
    assert [inst][..0] == [];
  }
}
