/** Extraction coverage under validation findings, as a record and as a session payload. */
module Coverage {
  import opened Options
  import opened PyText
  import opened Distinct

  const RC_COVERAGE_INSUFFICIENT := "BUSINESS_RULES_CODE_COVERAGE_INSUFFICIENT"
  const RC_QUALITY_INSUFFICIENT := "BUSINESS_RULES_CODE_QUALITY_INSUFFICIENT"

  /** `metrics` stands for every field the reconcilers pass through. */
  datatype Report = Report(
    reasonCodes: seq<string>,
    qualityReasons: seq<string>,
    sufficient: bool,
    grade: string,
    metrics: map<string, real>)

  datatype RawList = Absent | NotAList | Items(items: seq<string>)

  datatype Payload = Payload(
    reasonCodes: RawList,
    qualityReasons: RawList,
    sufficient: Option<bool>,
    grade: Option<string>,
    metrics: map<string, real>)

  function ToPayload(c: Report): Payload
  {
    Payload(Items(c.reasonCodes), Items(c.qualityReasons), Some(c.sufficient), Some(c.grade), c.metrics)
  }

  /** The quality reason a validation code stands for; `None` for codes that leave coverage alone. */
  function QualityReason(code: string): Option<string>
  {
    var c := Strip(code);
    if c == "BUSINESS_RULES_RENDER_MISMATCH" then Some("validation_render_mismatch")
    else if c == "BUSINESS_RULES_COUNT_MISMATCH" then Some("validation_count_mismatch")
    else if c == "BUSINESS_RULES_SEGMENTATION_FAILED" then Some("validation_segmentation_failed")
    else if c == "BUSINESS_RULES_SOURCE_VIOLATION" then Some("validation_source_violation")
    else None
  }

  /** The quality reasons of the severe codes, in order. */
  function SevereReasons(codes: seq<string>): seq<string>
  {
    if codes == [] then []
    else
      var front, last := SevereReasons(codes[..|codes| - 1]), QualityReason(codes[|codes| - 1]);
      if last.Some? then front + [last.value] else front
  }

  function Stripped(raw: RawList): seq<string>
  {
    if raw.Items? then StripAll(raw.items) else []
  }

  // ---------------------------------------------------------------------
  // What reconciliation means
  // ---------------------------------------------------------------------

  const INSUFFICIENT: seq<string> := [RC_COVERAGE_INSUFFICIENT, RC_QUALITY_INSUFFICIENT]

  /** The effect of a list of severe reasons. */
  function Lowered(c: Report, severe: seq<string>): Report
  {
    if severe == [] then c
    else
      c.(reasonCodes := Dedup(c.reasonCodes + INSUFFICIENT),
      qualityReasons := Dedup(c.qualityReasons + severe),
      sufficient := false,
      grade := "poor")
  }

  function LoweredPayload(p: Payload, severe: seq<string>): Payload
  {
    if severe == [] then p
    else
      p.(reasonCodes := Items(Dedup(Stripped(p.reasonCodes) + INSUFFICIENT)),
      qualityReasons := Items(Dedup(Stripped(p.qualityReasons) + severe)),
      sufficient := Some(false),
      grade := Some("poor"))
  }

  function Reconciled(c: Report, codes: seq<string>): Report
  {
    Lowered(c, SevereReasons(codes))
  }

  function ReconciledPayload(p: Payload, codes: seq<string>): Payload
  {
    LoweredPayload(p, SevereReasons(codes))
  }

  // ---------------------------------------------------------------------
  // The two reconcilers
  // ---------------------------------------------------------------------

  method CollectSevere(codes: seq<string>) returns (severe: seq<string>)
    ensures SevereReasons(severe) == SevereReasons(codes) && |severe| == |SevereReasons(codes)|
    ensures forall c <- severe :: QualityReason(c).Some?
  {
    severe := [];
    for i := 0 to |codes|
      invariant SevereReasons(severe) == SevereReasons(codes[..i]) && |severe| == |SevereReasons(codes[..i])|
      invariant forall c <- severe :: QualityReason(c).Some?
    {
      assert codes[..i + 1][..i] == codes[..i];
      if QualityReason(codes[i]).Some? {
        assert (severe + [codes[i]])[..|severe|] == severe;
        severe := severe + [codes[i]];
      }
    }
    assert codes[..|codes|] == codes;
  }

  /** Appends each insufficiency code that is not listed yet. */
  method MarkInsufficient(reasons: seq<string>) returns (r: seq<string>)
    ensures Dedup(r) == Dedup(reasons + INSUFFICIENT)
  {
    r := reasons;
    if RC_COVERAGE_INSUFFICIENT !in r {
      r := r + [RC_COVERAGE_INSUFFICIENT];
    }
    AddedUnlessPresent(reasons, RC_COVERAGE_INSUFFICIENT);
    ghost var middle := r;
    if RC_QUALITY_INSUFFICIENT !in r {
      r := r + [RC_QUALITY_INSUFFICIENT];
    }
    AddedUnlessPresent(middle, RC_QUALITY_INSUFFICIENT);
    SameDedup(middle, reasons + [RC_COVERAGE_INSUFFICIENT], [RC_QUALITY_INSUFFICIENT]);
    assert (reasons + [RC_COVERAGE_INSUFFICIENT]) + [RC_QUALITY_INSUFFICIENT] == reasons + INSUFFICIENT;
  }

  /** Appends the reason of each severe code unless it is listed. */
  method ExplainQuality(reasons: seq<string>, severe: seq<string>) returns (r: seq<string>)
    requires forall c <- severe :: QualityReason(c).Some?
    ensures Dedup(r) == Dedup(reasons + SevereReasons(severe))
  {
    r := reasons;
    assert reasons + SevereReasons(severe[..0]) == reasons;
    for i := 0 to |severe|
      invariant Dedup(r) == Dedup(reasons + SevereReasons(severe[..i]))
    {
      var reason := QualityReason(severe[i]).value;
      AddedUnlessPresent(r, reason);
      SameDedup(r, reasons + SevereReasons(severe[..i]), [reason]);
      assert severe[..i + 1][..i] == severe[..i];
      assert reasons + SevereReasons(severe[..i + 1]) == (reasons + SevereReasons(severe[..i])) + [reason];
      if reason !in r {
        r := r + [reason];
      }
    }
    assert severe[..|severe|] == severe;
  }

  method ReconcileCoverage(c: Report, codes: seq<string>) returns (r: Report)
    ensures r == Reconciled(c, codes)
  {
    var severe := CollectSevere(codes);
    if severe == [] {
      return c;
    }
    var reasonCodes := MarkInsufficient(c.reasonCodes);
    var quality := ExplainQuality(c.qualityReasons, severe);
    r := c.(reasonCodes := Dedup(reasonCodes), sufficient := false, grade := "poor", qualityReasons := Dedup(quality));
  }

  method ReconcilePayload(p: Payload, codes: seq<string>) returns (r: Payload)
    ensures r == ReconciledPayload(p, codes)
  {
    var severe := CollectSevere(codes);
    if severe == [] {
      return p;
    }
    var reasonCodes := MarkInsufficient(Stripped(p.reasonCodes));
    var quality := ExplainQuality(Stripped(p.qualityReasons), severe);
    r := p.(reasonCodes := Items(Dedup(reasonCodes)), qualityReasons := Items(Dedup(quality)),
    sufficient := Some(false), grade := Some("poor"));
  }

  lemma AddedUnlessPresent(s: seq<string>, x: string)
    ensures x in s ==> Dedup(s) == Dedup(s + [x])
  {
    DedupSnoc(s, x);
    DedupKeepsMembers(s);
  }

  lemma SameDedup(a: seq<string>, b: seq<string>, more: seq<string>)
    requires Dedup(a) == Dedup(b)
    ensures Dedup(a + more) == Dedup(b + more)
  {
    DedupAbsorbs(a, more);
    DedupAbsorbs(b, more);
  }

  // ---------------------------------------------------------------------
  // The two representations agree
  // ---------------------------------------------------------------------

  lemma StripAllIsExact(items: seq<string>)
    ensures Tidy(StripAll(items))
    ensures Tidy(items) ==> StripAll(items) == items
  {
    StripAllTidies(items);
    if Tidy(items) {
      StripAllKeeps(items);
    }
  }

  lemma AddedCodesAreTidy(codes: seq<string>)
    ensures Tidy(INSUFFICIENT) && Tidy(SevereReasons(codes))
  {
    InsufficientIsTidy(RC_COVERAGE_INSUFFICIENT, RC_QUALITY_INSUFFICIENT);
    ReasonsAreTidy(codes);
  }

  lemma InsufficientIsTidy(a: string, b: string)
    requires a == RC_COVERAGE_INSUFFICIENT && b == RC_QUALITY_INSUFFICIENT
    ensures Tidy([a, b])
  {
    assert |a| == 41 && |b| == 40;
    assert a[0] == 'B' && a[40] == 'T' && b[0] == 'B' && b[39] == 'T';
  }

  lemma {:induction false} ReasonsAreTidy(codes: seq<string>)
    ensures Tidy(SevereReasons(codes))
  {
    if codes != [] {
      ReasonsAreTidy(codes[..|codes| - 1]);
      ReasonIsTidy(codes[|codes| - 1]);
    }
  }

  lemma ReasonIsTidy(code: string)
    ensures QualityReason(code).Some? ==> Tidy([QualityReason(code).value])
  {
    var reason := QualityReason(code);
    if reason.Some? {
      EndsAreVisible(reason.value);
    }
  }

  lemma EndsAreVisible(r: string)
    requires r in ["validation_render_mismatch", "validation_count_mismatch", "validation_segmentation_failed",
                   "validation_source_violation"]
    ensures Tidy([r])
  {
    assert r[0] == 'v' && (r[|r| - 1] == 'h' || r[|r| - 1] == 'd' || r[|r| - 1] == 'n');
  }

  /** Removing duplicates keeps a list clean, and only a clean list. */
  lemma DedupKeepsTidy(items: seq<string>)
    ensures Tidy(Dedup(items)) <==> Tidy(items)
  {
    DedupKeepsMembers(items);
    assert forall x <- items :: x in Dedup(items);
  }

  lemma MergeAgrees(items: seq<string>, added: seq<string>)
    requires Tidy(added)
    ensures Dedup(StripAll(items) + added) == Dedup(items + added) <==> Tidy(items)
  {
    StripAllIsExact(items);
    DedupKeepsTidy(StripAll(items) + added);
    DedupKeepsTidy(items + added);
    assert forall x <- items :: x in items + added;
  }

  /** Reconciling and converting commute exactly when nothing is severe or every listed code is trimmed and non-empty. */
  lemma RepresentationsCommute(c: Report, codes: seq<string>)
    ensures ReconciledPayload(ToPayload(c), codes) == ToPayload(Reconciled(c, codes)) <==>
            SevereReasons(codes) == [] || (Tidy(c.reasonCodes) && Tidy(c.qualityReasons))
  {
    AddedCodesAreTidy(codes);
    MergeAgrees(c.reasonCodes, INSUFFICIENT);
    MergeAgrees(c.qualityReasons, SevereReasons(codes));
  }

  /** A coverage on which they differ: an untrimmed reason code is kept in the record and trimmed in the payload. */
  lemma UntrimmedCodeDiverges(c: Report, code: string, severe: string)
    requires code == " a" && c.reasonCodes == [code] && severe == "BUSINESS_RULES_COUNT_MISMATCH"
    ensures ReconciledPayload(ToPayload(c), [severe]) != ToPayload(Reconciled(c, [severe]))
  {
    RepresentationsCommute(c, [severe]);
    assert code in c.reasonCodes && !Trimmed(code);
    StripTrims(severe);
    assert QualityReason(severe).Some?;
    assert SevereReasons([severe]) == SevereReasons([]) + [QualityReason(severe).value];
  }

  // ---------------------------------------------------------------------
  // Reconciling more than once
  // ---------------------------------------------------------------------

  lemma {:induction false} SevereReasonsAppend(a: seq<string>, b: seq<string>)
    ensures SevereReasons(a + b) == SevereReasons(a) + SevereReasons(b)
  {
    if b == [] {
      assert a + b == a;
    } else {
      assert (a + b)[..|a + b| - 1] == a + b[..|b| - 1];
      SevereReasonsAppend(a, b[..|b| - 1]);
    }
  }

  lemma MergeTwice(items: seq<string>, a: seq<string>, b: seq<string>)
    ensures Dedup(Dedup(items + a) + b) == Dedup(items + (a + b))
    ensures (forall x <- b :: x in a) ==> Dedup(items + (a + b)) == Dedup(items + a)
  {
    DedupAbsorbs(items + a, b);
    assert items + (a + b) == items + a + b;
    if forall x <- b :: x in a {
      assert forall x <- b :: x in items + a;
      DedupRepeats(items + a, b);
    }
  }

  lemma LoweringTwice(c: Report, a: seq<string>, b: seq<string>)
    ensures Lowered(Lowered(c, a), b) == Lowered(c, a + b)
  {
    if a == [] {
      assert a + b == b;
    } else if b == [] {
      assert a + b == a;
    } else {
      MergeTwice(c.reasonCodes, INSUFFICIENT, INSUFFICIENT);
      MergeTwice(c.qualityReasons, a, b);
    }
  }

  lemma LoweringPayloadTwice(p: Payload, a: seq<string>, b: seq<string>)
    requires Tidy(INSUFFICIENT) && Tidy(a)
    ensures LoweredPayload(LoweredPayload(p, a), b) == LoweredPayload(p, a + b)
  {
    if a == [] {
      assert a + b == b;
    } else if b == [] {
      assert a + b == a;
    } else {
      MergeTwice(Stripped(p.reasonCodes), INSUFFICIENT, INSUFFICIENT);
      MergeTwice(Stripped(p.qualityReasons), a, b);
      TidyMergeIsKept(p.reasonCodes, INSUFFICIENT);
      TidyMergeIsKept(p.qualityReasons, a);
    }
  }

  /** Two reconciliations are one with both lists of codes. */
  lemma ReconcilingTwice(c: Report, a: seq<string>, b: seq<string>)
    ensures Reconciled(Reconciled(c, a), b) == Reconciled(c, a + b)
  {
    SevereReasonsAppend(a, b);
    LoweringTwice(c, SevereReasons(a), SevereReasons(b));
  }

  lemma ReconcilingPayloadTwice(p: Payload, a: seq<string>, b: seq<string>)
    ensures ReconciledPayload(ReconciledPayload(p, a), b) == ReconciledPayload(p, a + b)
  {
    SevereReasonsAppend(a, b);
    AddedCodesAreTidy(a);
    LoweringPayloadTwice(p, SevereReasons(a), SevereReasons(b));
  }

  lemma TidyMergeIsKept(raw: RawList, added: seq<string>)
    requires Tidy(added)
    ensures StripAll(Dedup(Stripped(raw) + added)) == Dedup(Stripped(raw) + added)
  {
    if raw.Items? {
      StripAllIsExact(raw.items);
    }
    DedupKeepsTidy(Stripped(raw) + added);
    StripAllIsExact(Dedup(Stripped(raw) + added));
  }

  lemma ReconcilersAreIdempotent(c: Report, p: Payload, codes: seq<string>)
    ensures Reconciled(Reconciled(c, codes), codes) == Reconciled(c, codes)
    ensures ReconciledPayload(ReconciledPayload(p, codes), codes) == ReconciledPayload(p, codes)
  {
    var severe := SevereReasons(codes);
    AddedCodesAreTidy(codes);
    LoweringTwice(c, severe, severe);
    LoweringPayloadTwice(p, severe, severe);
    MergeTwice(c.qualityReasons, severe, severe);
    MergeTwice(Stripped(p.qualityReasons), severe, severe);
  }

  /** Sufficient afterwards exactly when sufficient before and nothing was severe; listed codes are never lost. */
  lemma InsufficiencyStays(c: Report, codes: seq<string>)
    ensures Reconciled(c, codes).sufficient <==>
              c.sufficient && forall code <- codes :: QualityReason(code).None?
    ensures forall x <- c.reasonCodes :: x in Reconciled(c, codes).reasonCodes
    ensures forall code <- codes ::
              QualityReason(code).Some? ==> QualityReason(code).value in Reconciled(c, codes).qualityReasons
  {
    SevereMembers(codes);
    DedupKeepsMembers(c.reasonCodes + INSUFFICIENT);
    DedupKeepsMembers(c.qualityReasons + SevereReasons(codes));
  }

  lemma PayloadInsufficiencyStays(p: Payload, codes: seq<string>)
    ensures ReconciledPayload(p, codes).sufficient == Some(true) <==>
              p.sufficient == Some(true) && forall code <- codes :: QualityReason(code).None?
  {
    SevereMembers(codes);
  }

  lemma {:induction false} SevereMembers(codes: seq<string>)
    ensures SevereReasons(codes) == [] <==> forall code <- codes :: QualityReason(code).None?
    ensures forall code <- codes :: QualityReason(code).Some? ==> QualityReason(code).value in SevereReasons(codes)
  {
    if codes != [] {
      var front, last := codes[..|codes| - 1], codes[|codes| - 1];
      SevereMembers(front);
      assert codes == front + [last];
    }
  }

  /** The four validation codes that lower coverage, each with the reason it leaves. */
  lemma ReasonMeans(code: string, name: string)
    requires name == Strip(code)
    ensures name == "BUSINESS_RULES_RENDER_MISMATCH" ==> QualityReason(code) == Some("validation_render_mismatch")
    ensures name == "BUSINESS_RULES_COUNT_MISMATCH" ==> QualityReason(code) == Some("validation_count_mismatch")
    ensures name == "BUSINESS_RULES_SEGMENTATION_FAILED" ==> QualityReason(code) == Some("validation_segmentation_failed")
    ensures name == "BUSINESS_RULES_SOURCE_VIOLATION" ==> QualityReason(code) == Some("validation_source_violation")
    ensures QualityReason(code).Some? ==>
              name in {"BUSINESS_RULES_RENDER_MISMATCH", "BUSINESS_RULES_COUNT_MISMATCH",
                       "BUSINESS_RULES_SEGMENTATION_FAILED", "BUSINESS_RULES_SOURCE_VIOLATION"}
  {
    assert name == "BUSINESS_RULES_RENDER_MISMATCH" ==> |name| == 30;
    assert name == "BUSINESS_RULES_COUNT_MISMATCH" ==> |name| == 29;
    assert name == "BUSINESS_RULES_SEGMENTATION_FAILED" ==> |name| == 34;
    assert name == "BUSINESS_RULES_SOURCE_VIOLATION" ==> |name| == 31;
  }

  /** Nothing is added to the lists but the two insufficiency codes and the reasons of severe codes; the grade is poor. */
  lemma OnlyReasonsAreAdded(c: Report, codes: seq<string>)
    ensures var r := Reconciled(c, codes);
            var severe := exists code <- codes :: QualityReason(code).Some?;
            && (!severe ==> r == c)
            && (severe ==>
                  && !r.sufficient && r.grade == "poor" && r.metrics == c.metrics
                  && (forall x :: x in r.reasonCodes <==> x in c.reasonCodes || x in INSUFFICIENT)
                  && (forall x :: x in r.qualityReasons <==> x in c.qualityReasons || x in SevereReasons(codes))
                  && NoDuplicates(r.reasonCodes) && NoDuplicates(r.qualityReasons))
  {
    SevereMembers(codes);
    DedupKeepsMembers(c.reasonCodes + INSUFFICIENT);
    DedupKeepsMembers(c.qualityReasons + SevereReasons(codes));
    DedupHasNoDuplicates(c.reasonCodes + INSUFFICIENT);
    DedupHasNoDuplicates(c.qualityReasons + SevereReasons(codes));
  }
}
