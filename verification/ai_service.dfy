/**
  Reconciliation of a detection pass against a kit's reference list, and
  the conformity score computed from the reconciled list.

  `CompareWithReference` builds its result by appending inside two loops,
  as the service does; it is proved equal to the specification function
  `Reconciled`, and the properties of reconciliation are lemmas about
  that function.
*/
module AiService {
  import opened Types

  /** A detected instrument matches a reference one when they share a type or a name. */
  predicate Matches(d: Instrument, r: Instrument)
  {
    d.kind == r.kind || d.name == r.name
  }

  /** Index of the first detection, in detection order, that matches `r` (the `find` call). */
  function FirstMatch(detected: seq<Instrument>, r: Instrument): (k: Option<nat>)
    ensures k.Some? ==> k.value < |detected| && Matches(detected[k.value], r)
    ensures k.Some? ==> forall j :: 0 <= j < k.value ==> !Matches(detected[j], r)
    ensures k.None? <==> forall j :: 0 <= j < |detected| ==> !Matches(detected[j], r)
    decreases |detected|
  {
    if |detected| == 0 then None
    else if Matches(detected[0], r) then Some(0)
    else
      match FirstMatch(detected[1..], r)
      case None => None
      case Some(j) => Some(j + 1)
  }

  /** Some reference instrument matches `d` (the `some` call). */
  predicate InReference(d: Instrument, reference: seq<Instrument>)
  {
    exists i :: 0 <= i < |reference| && Matches(d, reference[i])
  }

  /** The entry emitted for one reference instrument. */
  function ReferenceEntry(detected: seq<Instrument>, r: Instrument): Instrument
  {
    match FirstMatch(detected, r)
    case Some(k) => detected[k].(status := Present)
    case None => r.(status := Missing, confidence := 0.0)
  }

  /** One entry per reference instrument, in reference order. */
  function ReferenceEntries(detected: seq<Instrument>, reference: seq<Instrument>): seq<Instrument>
  {
    seq(|reference|, i requires 0 <= i < |reference| => ReferenceEntry(detected, reference[i]))
  }

  /** The detections no reference instrument matches, marked extra, in detection order. */
  function ExtraEntries(detected: seq<Instrument>, reference: seq<Instrument>): seq<Instrument>
    decreases |detected|
  {
    if |detected| == 0 then []
    else
      var last := detected[|detected| - 1];
      ExtraEntries(detected[..|detected| - 1], reference)
        + (if InReference(last, reference) then [] else [last.(status := Extra)])
  }

  /**
    The positions in `detected` of the detections that no reference
    instrument matches: ascending, and containing every such position.
  */
  function UnmatchedIndices(detected: seq<Instrument>, reference: seq<Instrument>): (idx: seq<nat>)
    ensures forall k :: 0 <= k < |idx| ==> idx[k] < |detected|
    ensures forall k, l :: 0 <= k < l < |idx| ==> idx[k] < idx[l]
    ensures forall j :: 0 <= j < |detected| ==> (j in idx <==> !InReference(detected[j], reference))
    decreases |detected|
  {
    if |detected| == 0 then []
    else
      var n := |detected| - 1;
      UnmatchedIndices(detected[..n], reference)
        + (if InReference(detected[n], reference) then [] else [n])
  }

  /** The annotated list: reference entries first, then the extras. */
  function Reconciled(detected: seq<Instrument>, reference: seq<Instrument>): seq<Instrument>
  {
    ReferenceEntries(detected, reference) + ExtraEntries(detected, reference)
  }

  /** Annotates `detected` against `reference`: present, missing or extra. */
  method CompareWithReference(detected: seq<Instrument>, reference: seq<Instrument>)
    returns (result: seq<Instrument>)
    ensures result == Reconciled(detected, reference)
  {
    result := [];
    for i := 0 to |reference|
      invariant result == ReferenceEntries(detected, reference[..i])
    {
      var found := FirstMatch(detected, reference[i]);
      if found.Some? {
        result := result + [detected[found.value].(status := Present)];
      } else {
        result := result + [reference[i].(status := Missing, confidence := 0.0)];
      }
    }
    assert reference[..|reference|] == reference;
    for i := 0 to |detected|
      invariant result == ReferenceEntries(detected, reference) + ExtraEntries(detected[..i], reference)
    {
      var isInReference := InReference(detected[i], reference);
      if !isInReference {
        result := result + [detected[i].(status := Extra)];
      }
      assert detected[..i + 1][..i] == detected[..i];
    }
    assert detected[..|detected|] == detected;
  }

  // ---------------------------------------------------------------------
  // Properties of reconciliation

  lemma {:induction false} ExtraEntriesFollowUnmatched(detected: seq<Instrument>, reference: seq<Instrument>)
    ensures |ExtraEntries(detected, reference)| == |UnmatchedIndices(detected, reference)|
    ensures forall k :: 0 <= k < |ExtraEntries(detected, reference)| ==>
      ExtraEntries(detected, reference)[k]
        == detected[UnmatchedIndices(detected, reference)[k]].(status := Extra)
    decreases |detected|
  {
    if |detected| > 0 {
      var n := |detected| - 1;
      ExtraEntriesFollowUnmatched(detected[..n], reference);
    }
  }

  /** Length: one entry per reference instrument plus one per unmatched detection. */
  lemma ReconciledLength(detected: seq<Instrument>, reference: seq<Instrument>)
    ensures |Reconciled(detected, reference)| == |reference| + |UnmatchedIndices(detected, reference)|
  {
    ExtraEntriesFollowUnmatched(detected, reference);
  }

  /** Entry i < |reference| is present iff some detection matches reference i, else missing. */
  lemma ReferenceEntryStatus(detected: seq<Instrument>, reference: seq<Instrument>, i: nat)
    requires i < |reference|
    ensures i < |Reconciled(detected, reference)|
    ensures Reconciled(detected, reference)[i].status == Present
      <==> exists j :: 0 <= j < |detected| && Matches(detected[j], reference[i])
    ensures Reconciled(detected, reference)[i].status == Missing
      <==> forall j :: 0 <= j < |detected| ==> !Matches(detected[j], reference[i])
  {
    var e := Reconciled(detected, reference)[i];
    assert e == ReferenceEntry(detected, reference[i]);
    match FirstMatch(detected, reference[i])
    case Some(k) =>
      assert Matches(detected[k], reference[i]);
    case None =>
  }

  /**
    A present entry is a copy, with only the status overwritten, of the
    first detection in detection order that matches its reference item.
  */
  lemma PresentEntryIsFirstMatch(detected: seq<Instrument>, reference: seq<Instrument>, i: nat)
    requires i < |reference|
    requires i < |Reconciled(detected, reference)|
    requires Reconciled(detected, reference)[i].status == Present
    ensures exists j :: (0 <= j < |detected| && Matches(detected[j], reference[i])
      && (forall j' :: 0 <= j' < j ==> !Matches(detected[j'], reference[i]))
      && Reconciled(detected, reference)[i] == detected[j].(status := Present))
  {
    assert Reconciled(detected, reference)[i] == ReferenceEntry(detected, reference[i]);
    var k := FirstMatch(detected, reference[i]).value;
    assert Matches(detected[k], reference[i]);
  }

  /** A missing entry is its reference item with status missing and confidence 0. */
  lemma MissingEntryIsReferenceCopy(detected: seq<Instrument>, reference: seq<Instrument>, i: nat)
    requires i < |reference|
    requires i < |Reconciled(detected, reference)|
    requires Reconciled(detected, reference)[i].status == Missing
    ensures Reconciled(detected, reference)[i] == reference[i].(status := Missing, confidence := 0.0)
  {
    assert Reconciled(detected, reference)[i] == ReferenceEntry(detected, reference[i]);
  }

  /**
    The entries after the reference part are exactly the unmatched
    detections, in detection order, each marked extra.
  */
  lemma ExtrasInDetectionOrder(detected: seq<Instrument>, reference: seq<Instrument>)
    ensures var out, idx := Reconciled(detected, reference), UnmatchedIndices(detected, reference);
      |out| == |reference| + |idx|
      && forall k :: 0 <= k < |idx| ==> out[|reference| + k] == detected[idx[k]].(status := Extra)
  {
    var out, ex := Reconciled(detected, reference), ExtraEntries(detected, reference);
    ExtraEntriesFollowUnmatched(detected, reference);
    assert |ReferenceEntries(detected, reference)| == |reference|;
    forall k | 0 <= k < |ex| ensures out[|reference| + k] == ex[k] {
    }
  }

  /**
    A detection that matches some reference item, but is nobody's first
    match, contributes no entry: it is neither present nor extra.
  */
  lemma NonFirstMatchDropped(detected: seq<Instrument>, reference: seq<Instrument>, j: nat)
    requires j < |detected| && InReference(detected[j], reference)
    requires forall i :: 0 <= i < |reference| ==> FirstMatch(detected, reference[i]) != Some(j)
    ensures j !in UnmatchedIndices(detected, reference)
    ensures forall i :: 0 <= i < |reference| ==>
      Reconciled(detected, reference)[i] == ReferenceEntry(detected, reference[i])
      && (Reconciled(detected, reference)[i].status == Present ==>
            exists k :: 0 <= k < |detected| && k != j
              && Reconciled(detected, reference)[i] == detected[k].(status := Present))
  {
    forall i | 0 <= i < |reference|
      ensures Reconciled(detected, reference)[i] == ReferenceEntry(detected, reference[i])
      ensures Reconciled(detected, reference)[i].status == Present ==>
            exists k :: 0 <= k < |detected| && k != j
              && Reconciled(detected, reference)[i] == detected[k].(status := Present)
    {
      match FirstMatch(detected, reference[i])
      case Some(k) =>
        assert Reconciled(detected, reference)[i] == detected[k].(status := Present);
      case None =>
    }
  }

  /** With an empty reference every detection becomes extra, in order. */
  lemma {:induction false} EmptyReferenceAllExtra(detected: seq<Instrument>)
    ensures Reconciled(detected, []) == seq(|detected|, k requires 0 <= k < |detected| => detected[k].(status := Extra))
    decreases |detected|
  {
    assert Reconciled(detected, []) == ExtraEntries(detected, []);
    if |detected| > 0 {
      var n := |detected| - 1;
      EmptyReferenceAllExtra(detected[..n]);
      assert Reconciled(detected[..n], []) == ExtraEntries(detected[..n], []);
      assert !InReference(detected[n], []);
    }
  }

  /** With no detection every reference item becomes missing, in order. */
  lemma EmptyDetectionAllMissing(reference: seq<Instrument>)
    ensures Reconciled([], reference)
      == seq(|reference|, i requires 0 <= i < |reference| => reference[i].(status := Missing, confidence := 0.0))
  {
  }

  /** Two reference items of one type both claim the same single detection. */
  lemma DoubleClaimExample(d: Instrument, r1: Instrument, r2: Instrument)
    requires d.kind == r1.kind == r2.kind && r1 != r2
    ensures Reconciled([d], [r1, r2]) == [d.(status := Present), d.(status := Present)]
  {
    assert FirstMatch([d], r1) == Some(0);
    assert FirstMatch([d], r2) == Some(0);
    assert InReference(d, [r1, r2]) by { assert Matches(d, [r1, r2][0]); }
    assert ExtraEntries([d], [r1, r2]) == ExtraEntries([], [r1, r2]) + [];
  }

  /** A second detection of the same type as the only reference item is dropped. */
  lemma SecondMatchDroppedExample(d1: Instrument, d2: Instrument, r: Instrument)
    requires d1.kind == d2.kind == r.kind
    ensures Reconciled([d1, d2], [r]) == [d1.(status := Present)]
  {
    assert FirstMatch([d1, d2], r) == Some(0);
    assert InReference(d1, [r]) by { assert Matches(d1, [r][0]); }
    assert InReference(d2, [r]) by { assert Matches(d2, [r][0]); }
    assert [d1, d2][..1] == [d1];
    assert [d1][..0] == [];
    assert ExtraEntries([d1], [r]) == [];
    assert ExtraEntries([d1, d2], [r]) == [];
  }

  // ---------------------------------------------------------------------
  // Conformity score

  /** Number of entries whose status is present. */
  function PresentCount(s: seq<Instrument>): (n: nat)
    ensures n <= |s|
    ensures n == |s| <==> forall i :: 0 <= i < |s| ==> s[i].status == Present
    ensures n == 0 <==> forall i :: 0 <= i < |s| ==> s[i].status != Present
    decreases |s|
  {
    if |s| == 0 then 0
    else PresentCount(s[..|s| - 1]) + (if s[|s| - 1].status == Present then 1 else 0)
  }

  lemma {:induction false} PresentCountAppend(a: seq<Instrument>, b: seq<Instrument>)
    ensures PresentCount(a + b) == PresentCount(a) + PresentCount(b)
    decreases |b|
  {
    if |b| > 0 {
      var n := |b| - 1;
      assert (a + b)[..|a + b| - 1] == a + b[..n];
      PresentCountAppend(a, b[..n]);
    } else {
      assert a + b == a;
    }
  }

  /** `Math.round(100 * p / n)` for n > 0, in exact arithmetic: halves round up. */
  function RoundedPercent(p: nat, n: nat): (pct: nat)
    requires n > 0
  {
    (200 * p + n) / (2 * n)
  }

  lemma MultiplyMonotone(d: int, x: int, y: int)
    requires d >= 0 && x <= y
    ensures d * x <= d * y
  {
    assert d * y - d * x == d * (y - x);
  }

  /** Integer division pinned down by bounds on the quotient. */
  lemma DivisionByBounds(a: int, d: int, k: int)
    requires d > 0 && d * k <= a < d * (k + 1)
    ensures a / d == k
  {
    var q, r := a / d, a % d;
    assert a == d * q + r && 0 <= r < d;
    if q > k {
      MultiplyMonotone(d, k + 1, q);
      assert false;
    } else if q < k {
      MultiplyMonotone(d, q + 1, k);
      assert false;
    }
  }

  /**
    The rounded percentage is the integer nearest to 100p/n, halves going
    up: n(2pct - 1) <= 200p < n(2pct + 1), i.e. pct - 1/2 <= 100p/n < pct + 1/2.
  */
  lemma RoundedPercentIsNearest(p: nat, n: nat)
    requires n > 0
    ensures var pct: int := RoundedPercent(p, n);
      n * (2 * pct - 1) <= 200 * p < n * (2 * pct + 1)
  {
    var pct: int := RoundedPercent(p, n);
    var q := (200 * p + n) % (2 * n);
    assert 200 * p + n == 2 * n * pct + q && 0 <= q < 2 * n;
    assert n * (2 * pct - 1) == 2 * n * pct - n;
    assert n * (2 * pct + 1) == 2 * n * pct + n;
  }

  lemma RoundedPercentMonotone(p1: nat, p2: nat, n: nat)
    requires n > 0 && p1 <= p2
    ensures RoundedPercent(p1, n) <= RoundedPercent(p2, n)
  {
    var a, b, d := 200 * p1 + n, 200 * p2 + n, 2 * n;
    var qa, qb := a / d, b / d;
    assert a == d * qa + a % d && 0 <= a % d < d;
    assert b == d * qb + b % d && 0 <= b % d < d;
    if qa > qb {
      MultiplyMonotone(d, qb + 1, qa);
      assert false;
    }
  }

  lemma RoundedPercentAtMostHundred(p: nat, n: nat)
    requires n > 0 && p <= n
    ensures RoundedPercent(p, n) <= 100
    ensures RoundedPercent(p, n) == 100 <==> 200 * p >= 199 * n
  {
    var a, d := 200 * p + n, 2 * n;
    if 200 * p >= 199 * n {
      DivisionByBounds(a, d, 100);
    } else {
      var pct := a / d;
      assert a == d * pct + a % d && 0 <= a % d < d;
      if pct >= 100 {
        MultiplyMonotone(d, 100, pct);
        assert false;
      }
    }
  }

  /**
    The conformity score: 100 when the reference list is empty, whatever
    was detected; otherwise the rounded percentage of present entries in
    `detected` relative to the reference count.
  */
  function ConformityScore(detected: seq<Instrument>, reference: seq<Instrument>): (score: nat)
    ensures |reference| == 0 ==> score == 100
    ensures |reference| > 0 ==>
      |reference| * (2 * score - 1) <= 200 * PresentCount(detected) < |reference| * (2 * score + 1)
    ensures PresentCount(detected) <= |reference| ==> score <= 100
  {
    if |reference| == 0 then 100
    else
      var p, n := PresentCount(detected), |reference|;
      RoundedPercentIsNearest(p, n);
      if p <= n then RoundedPercentAtMostHundred(p, n); RoundedPercent(p, n)
      else RoundedPercent(p, n)
  }

  /** More present entries against the same reference never lower the score. */
  lemma ScoreMonotone(d1: seq<Instrument>, d2: seq<Instrument>, reference: seq<Instrument>)
    requires PresentCount(d1) <= PresentCount(d2)
    ensures ConformityScore(d1, reference) <= ConformityScore(d2, reference)
  {
    if |reference| > 0 {
      RoundedPercentMonotone(PresentCount(d1), PresentCount(d2), |reference|);
    }
  }

  /** Only the reference part of a reconciled list can be present: extras never are. */
  lemma {:induction false} ExtraEntriesNeverPresent(detected: seq<Instrument>, reference: seq<Instrument>)
    ensures PresentCount(ExtraEntries(detected, reference)) == 0
  {
    ExtraEntriesFollowUnmatched(detected, reference);
  }

  /**
    On a reconciled list the present count is that of the reference part,
    at most the reference count, so the score is at most 100.
  */
  lemma ReconciledScoreAtMostHundred(detected: seq<Instrument>, reference: seq<Instrument>)
    ensures PresentCount(Reconciled(detected, reference)) == PresentCount(ReferenceEntries(detected, reference))
    ensures PresentCount(Reconciled(detected, reference)) <= |reference|
    ensures ConformityScore(Reconciled(detected, reference), reference) <= 100
  {
    PresentCountAppend(ReferenceEntries(detected, reference), ExtraEntries(detected, reference));
    ExtraEntriesNeverPresent(detected, reference);
    if |reference| > 0 {
      RoundedPercentAtMostHundred(PresentCount(Reconciled(detected, reference)), |reference|);
    }
  }
}
