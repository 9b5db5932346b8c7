/** The strict-exit gate: one verdict per pass criterion, folded into one result. */
module StrictExit {
  import opened Options
  import opened PyText
  import opened Casing
  import opened Distinct
  import opened EvidencePolicy

  datatype Verdict = Fine | Warn | NotVerified | Blocked

  datatype Code = NoCode | BlockedMissing | BlockedStale | BlockedThreshold | NotVerifiedMissing | NotVerifiedStale

  function Severity(v: Verdict): nat
  {
    match v
    case Fine => 0
    case Warn => 1
    case NotVerified => 2
    case Blocked => 3
  }

  predicate IsBlockedCode(c: Code)
  {
    c.BlockedMissing? || c.BlockedStale? || c.BlockedThreshold?
  }

  /** A pass criterion; `None` where a field is absent, or for the threshold mode not text. */
  datatype Criterion = Criterion(
    kind: Option<string>,
    key: Option<string>,
    critical: bool,
    thresholdMode: Option<string>,
    thresholdResolver: Option<string>)

  /** A recorded value as a finite number; `None` for anything that is not one. */
  datatype Piece = Piece(timing: Timing, value: Option<real>)

  datatype Setting = Setting(evidence: map<string, Piece>, tier: string, now: int, strict: bool)

  datatype CriterionResult = CriterionResult(key: string, kind: string, critical: bool, verdict: Verdict, code: Code)

  function TextOr(o: Option<string>, default_: string): string
  {
    if o.Some? then o.value else default_
  }

  // ---------------------------------------------------------------------
  // Thresholds
  // ---------------------------------------------------------------------

  /** 2 for high and critical, 1 for medium, 0 for everything else. */
  function TierRank(h: Host, tier: string): nat
  {
    var t := Lower(h, Strip(tier));
    if t == "critical" || t == "high" then 2 else if t == "medium" then 1 else 0
  }

  function RequiredShare(h: Host, tier: string): real
  {
    match TierRank(h, tier)
    case 0 => 40.0
    case 1 => 60.0
    case _ => 80.0
  }

  function MeetsThreshold(h: Host, value: Option<real>, tier: string): bool
  {
    value.Some? && value.value >= RequiredShare(h, tier)
  }

  predicate HasThreshold(c: Criterion)
  {
    c.thresholdMode.Some? && Strip(c.thresholdMode.value) != ""
  }

  predicate KnownResolver(h: Host, c: Criterion)
    requires HasThreshold(c)
  {
    Lower(h, Strip(TextOr(c.thresholdResolver, c.thresholdMode.value))) == "dynamic_by_risk_tier"
  }

  // ---------------------------------------------------------------------
  // One criterion
  // ---------------------------------------------------------------------

  function Kind(c: Criterion): string
  {
    Strip(TextOr(c.kind, ""))
  }

  predicate IsMissing(c: Criterion, s: Setting)
  {
    Kind(c) !in s.evidence
  }

  predicate IsOutdated(h: Host, c: Criterion, s: Setting)
  {
    Kind(c) in s.evidence && Stale(h, s.evidence[Kind(c)].timing, s.now)
  }

  predicate FallsShort(h: Host, c: Criterion, s: Setting)
  {
    Kind(c) in s.evidence && HasThreshold(c)
    && !(KnownResolver(h, c) && MeetsThreshold(h, s.evidence[Kind(c)].value, s.tier))
  }

  /** The branches, each with its verdict and its code. */
  function Judge(missing: bool, outdated: bool, short: bool, critical: bool, strict: bool): (Verdict, Code)
  {
    if missing then
      if !strict then (Warn, NoCode) else if critical then (Blocked, BlockedMissing) else (NotVerified, NotVerifiedMissing)
    else if outdated then
      if !strict then (Warn, NoCode) else if critical then (Blocked, BlockedStale) else (NotVerified, NotVerifiedStale)
    else if short then
      if strict && critical then (Blocked, BlockedThreshold) else (Warn, NoCode)
    else (Fine, NoCode)
  }

  function Evaluate(h: Host, c: Criterion, s: Setting): CriterionResult
  {
    var judged := Judge(IsMissing(c, s), IsOutdated(h, c, s), FallsShort(h, c, s), c.critical, s.strict);
    CriterionResult(Strip(TextOr(c.key, Kind(c))), Kind(c), c.critical, judged.0, judged.1)
  }

  /** What is wrong with the evidence a criterion asks for. */
  datatype Defect = NoDefect | BelowThreshold | StaleEvidence | MissingEvidence

  function DefectOf(h: Host, c: Criterion, s: Setting): Defect
  {
    if Kind(c) !in s.evidence then MissingEvidence
    else if Stale(h, s.evidence[Kind(c)].timing, s.now) then StaleEvidence
    else if HasThreshold(c) && KnownResolver(h, c) && MeetsThreshold(h, s.evidence[Kind(c)].value, s.tier) then NoDefect
    else if HasThreshold(c) then BelowThreshold
    else NoDefect
  }

  /** The documented decision matrix: defect by criticality, with everything a warning when not strict. */
  function Matrix(d: Defect, critical: bool, strict: bool): Verdict
  {
    if d.NoDefect? then Fine
    else if !strict then Warn
    else if critical then Blocked
    else if d.BelowThreshold? then Warn
    else NotVerified
  }

  /** The verdict is the matrix entry, and the code names it: a blocked code exactly when blocked. */
  lemma EvaluateFollowsMatrix(h: Host, c: Criterion, s: Setting)
    ensures var r := Evaluate(h, c, s);
            && r.verdict == Matrix(DefectOf(h, c, s), c.critical, s.strict)
            && (r.verdict == Blocked <==> IsBlockedCode(r.code))
            && (r.verdict == NotVerified <==> r.code == NotVerifiedMissing || r.code == NotVerifiedStale)
            && (!s.strict ==> r.verdict != Blocked && r.code == NoCode)
  {
    JudgeFollowsMatrix(IsMissing(c, s), IsOutdated(h, c, s), FallsShort(h, c, s), c.critical, s.strict);
  }

  lemma JudgeFollowsMatrix(missing: bool, outdated: bool, short: bool, critical: bool, strict: bool)
    ensures var (verdict, code) := Judge(missing, outdated, short, critical, strict);
            && verdict == Matrix(if missing then MissingEvidence else if outdated then StaleEvidence
                                 else if short then BelowThreshold else NoDefect, critical, strict)
            && (verdict == Blocked <==> IsBlockedCode(code))
            && (verdict == NotVerified <==> code == NotVerifiedMissing || code == NotVerifiedStale)
            && (!strict ==> verdict != Blocked && code == NoCode)
  {
  }

  /** `t` is a harder setting than `s`: same evidence, no earlier, no lower tier, strict if `s` is. */
  ghost predicate Harder(h: Host, s: Setting, t: Setting)
  {
    && s.evidence == t.evidence
    && s.now <= t.now
    && TierRank(h, s.tier) <= TierRank(h, t.tier)
    && (s.strict ==> t.strict)
  }

  lemma ThresholdsRise(h: Host, value: Option<real>, low: string, high: string)
    requires TierRank(h, low) <= TierRank(h, high)
    ensures MeetsThreshold(h, value, high) ==> MeetsThreshold(h, value, low)
  {
  }

  /** A verdict never improves in a harder setting. */
  lemma VerdictsOnlyWorsen(h: Host, c: Criterion, s: Setting, t: Setting)
    requires Harder(h, s, t)
    ensures Severity(Evaluate(h, c, s).verdict) <= Severity(Evaluate(h, c, t).verdict)
  {
    EvaluateFollowsMatrix(h, c, s);
    EvaluateFollowsMatrix(h, c, t);
    if Kind(c) in s.evidence {
      StalenessLasts(h, s.evidence[Kind(c)].timing, s.now, t.now);
      ThresholdsRise(h, s.evidence[Kind(c)].value, s.tier, t.tier);
    }
  }

  // ---------------------------------------------------------------------
  // All criteria
  // ---------------------------------------------------------------------

  /** The summary names the worst verdict and how many criteria have it; no count when all is well. */
  datatype Summary = NoCriteria | AllSatisfied | Failing(verdict: Verdict, count: nat)

  datatype ExitResult = ExitResult(blocked: bool, criteria: seq<CriterionResult>, codes: seq<Code>, summary: Summary)

  function Evaluator(h: Host, s: Setting): Criterion -> CriterionResult
  {
    c => Evaluate(h, c, s)
  }

  /** One result per criterion, in order. */
  ghost function Results(h: Host, criteria: seq<Criterion>, s: Setting): (r: seq<CriterionResult>)
    ensures |r| == |criteria|
  {
    MapSeq(Evaluator(h, s), criteria)
  }

  lemma ResultAt(h: Host, criteria: seq<Criterion>, s: Setting, i: nat)
    requires i < |criteria|
    ensures Results(h, criteria, s)[i] == Evaluate(h, criteria[i], s)
  {
  }

  function HowMany(results: seq<CriterionResult>, v: Verdict): (n: nat)
    ensures n > 0 <==> exists i :: 0 <= i < |results| && results[i].verdict == v
  {
    if results == [] then 0
    else
      var front := results[..|results| - 1];
      assert forall i :: 0 <= i < |front| ==> front[i] == results[i];
      HowMany(front, v) + if results[|results| - 1].verdict == v then 1 else 0
  }

  function Codes(results: seq<CriterionResult>): seq<Code>
  {
    if results == [] then []
    else
      var front, last := Codes(results[..|results| - 1]), results[|results| - 1].code;
      if last == NoCode then front else front + [last]
  }

  function SummaryOf(results: seq<CriterionResult>): Summary
  {
    if HowMany(results, Blocked) > 0 then Failing(Blocked, HowMany(results, Blocked))
    else if HowMany(results, NotVerified) > 0 then Failing(NotVerified, HowMany(results, NotVerified))
    else if HowMany(results, Warn) > 0 then Failing(Warn, HowMany(results, Warn))
    else if results != [] then AllSatisfied
    else NoCriteria
  }

  ghost function Overall(results: seq<CriterionResult>): ExitResult
  {
    ExitResult(HowMany(results, Blocked) > 0, results, Dedup(Codes(results)), SummaryOf(results))
  }

  method EvaluateStrictExit(h: Host, criteria: seq<Criterion>, s: Setting) returns (r: ExitResult)
    ensures r == Overall(Results(h, criteria, s))
  {
    var results := MapEach(Evaluator(h, s), criteria);
    var codes := ListCodes(results);
    r := ExitResult(HowMany(results, Blocked) > 0, results, codes, SummaryOf(results));
  }

  /** The collecting loop. */
  method MapEach<A, B>(f: A -> B, items: seq<A>) returns (r: seq<B>)
    ensures r == MapSeq(f, items)
  {
    r := [];
    for i := 0 to |items|
      invariant r == MapSeq(f, items)[..i]
    {
      r := r + [f(items[i])];
    }
  }

  /** The deduplicating loop with its set of codes already seen. */
  method ListCodes(results: seq<CriterionResult>) returns (codes: seq<Code>)
    ensures codes == Dedup(Codes(results))
  {
    codes := [];
    var seen: set<Code> := {};
    for i := 0 to |results|
      invariant codes == Dedup(Codes(results[..i]))
      invariant forall c :: c in seen <==> c in codes
    {
      assert results[..i + 1][..i] == results[..i];
      var code := results[i].code;
      DedupSnoc(Codes(results[..i]), code);
      if code == NoCode || code in seen {
        continue;
      }
      codes := codes + [code];
      seen := seen + {code};
    }
    assert results[..|results|] == results;
  }

  // ---------------------------------------------------------------------
  // Evaluation is a homomorphism
  // ---------------------------------------------------------------------

  lemma {:induction false} HowManyAppend(a: seq<CriterionResult>, b: seq<CriterionResult>, v: Verdict)
    ensures HowMany(a + b, v) == HowMany(a, v) + HowMany(b, v)
  {
    if b == [] {
      assert a + b == a;
    } else {
      assert (a + b)[..|a + b| - 1] == a + b[..|b| - 1];
      HowManyAppend(a, b[..|b| - 1], v);
    }
  }

  lemma {:induction false} CodesAppend(a: seq<CriterionResult>, b: seq<CriterionResult>)
    ensures Codes(a + b) == Codes(a) + Codes(b)
  {
    if b == [] {
      assert a + b == a;
    } else {
      assert (a + b)[..|a + b| - 1] == a + b[..|b| - 1];
      CodesAppend(a, b[..|b| - 1]);
    }
  }

  /** How summaries combine: the worse one stands, equals add up. */
  function Joined(x: Summary, y: Summary): Summary
  {
    if x.Failing? && y.Failing? then
      if x.verdict == y.verdict then Failing(x.verdict, x.count + y.count)
      else if Severity(x.verdict) > Severity(y.verdict) then x
      else y
    else if x.Failing? || y.NoCriteria? then x
    else y
  }

  lemma SummariesJoin(a: seq<CriterionResult>, b: seq<CriterionResult>)
    ensures SummaryOf(a + b) == Joined(SummaryOf(a), SummaryOf(b))
  {
    HowManyAppend(a, b, Blocked);
    HowManyAppend(a, b, NotVerified);
    HowManyAppend(a, b, Warn);
  }

  /** How results combine: codes of the second only where the first lacks them. */
  ghost function Combined(x: ExitResult, y: ExitResult): ExitResult
  {
    ExitResult(x.blocked || y.blocked, x.criteria + y.criteria, x.codes + Without(y.codes, x.codes),
               Joined(x.summary, y.summary))
  }

  lemma OverallAppend(p: seq<CriterionResult>, q: seq<CriterionResult>)
    ensures Overall(p + q) == Combined(Overall(p), Overall(q))
  {
    HowManyAppend(p, q, Blocked);
    SummariesJoin(p, q);
    CodesAppend(p, q);
    DedupAppend(Codes(p), Codes(q));
    DedupKeepsMembers(Codes(p));
    WithoutSame(Dedup(Codes(q)), Codes(p), Dedup(Codes(p)));
  }

  /** The result for `a + b` is put together from the results for `a` and for `b`. */
  lemma EvaluationIsHomomorphic(h: Host, a: seq<Criterion>, b: seq<Criterion>, s: Setting)
    ensures Overall(Results(h, a + b, s)) == Combined(Overall(Results(h, a, s)), Overall(Results(h, b, s)))
  {
    MapAppend(Evaluator(h, s), a, b);
    OverallAppend(Results(h, a, s), Results(h, b, s));
  }

  // ---------------------------------------------------------------------
  // What the result says
  // ---------------------------------------------------------------------

  function Worst(summary: Summary): Verdict
  {
    if summary.Failing? then summary.verdict else Fine
  }

  /** The summary names the worst verdict there is. */
  lemma SummaryIsWorst(results: seq<CriterionResult>)
    ensures forall r <- results :: Severity(r.verdict) <= Severity(Worst(SummaryOf(results)))
    ensures results != [] ==> exists r <- results :: r.verdict == Worst(SummaryOf(results))
    ensures SummaryOf(results) == NoCriteria <==> results == []
  {
    forall r | r in results
      ensures HowMany(results, r.verdict) > 0
    {
      var i :| 0 <= i < |results| && results[i] == r;
    }
    if results != [] {
      var w := Worst(SummaryOf(results));
      assert results[0] in results;
      if w != Fine {
        assert HowMany(results, w) > 0;
      }
      var i :| 0 <= i < |results| && results[i].verdict == w;
      assert results[i] in results;
    }
  }

  lemma {:induction false} CodesMembers(results: seq<CriterionResult>, c: Code)
    ensures c in Codes(results) <==> c != NoCode && exists i :: 0 <= i < |results| && results[i].code == c
  {
    if results != [] {
      var front := results[..|results| - 1];
      CodesMembers(front, c);
      assert forall i :: 0 <= i < |front| ==> front[i] == results[i];
    }
  }

  /** The listed codes are those of the results, each once, in order of first occurrence. */
  lemma CodesAreExact(h: Host, criteria: seq<Criterion>, s: Setting)
    ensures var r := Overall(Results(h, criteria, s));
            && NoDuplicates(r.codes)
            && (forall c :: c in r.codes <==> c != NoCode && exists i :: 0 <= i < |r.criteria| && r.criteria[i].code == c)
            && (forall i, j :: 0 <= i < j < |r.codes| ==>
                                 && r.codes[i] in Codes(r.criteria) && r.codes[j] in Codes(r.criteria)
                                 && FirstAt(Codes(r.criteria), r.codes[i]) < FirstAt(Codes(r.criteria), r.codes[j]))
  {
    var codes := Codes(Results(h, criteria, s));
    DedupHasNoDuplicates(codes);
    forall c
      ensures c in Dedup(codes) <==> c in codes
      ensures c in codes <==> c != NoCode && exists i :: 0 <= i < |criteria| && Results(h, criteria, s)[i].code == c
    {
      DedupMember(codes, c);
      CodesMembers(Results(h, criteria, s), c);
    }
    forall i, j | 0 <= i < j < |Dedup(codes)|
      ensures Dedup(codes)[i] in codes && Dedup(codes)[j] in codes
      ensures FirstAt(codes, Dedup(codes)[i]) < FirstAt(codes, Dedup(codes)[j])
    {
      DedupKeepsOrder(codes, i, j);
    }
  }

  ghost predicate WellCoded(results: seq<CriterionResult>, strict: bool)
  {
    && (forall i :: 0 <= i < |results| ==> (results[i].verdict == Blocked <==> IsBlockedCode(results[i].code)))
    && (!strict ==> forall i :: 0 <= i < |results| ==> results[i].verdict != Blocked && results[i].code == NoCode)
  }

  lemma WellCodedResults(results: seq<CriterionResult>, strict: bool)
    requires WellCoded(results, strict)
    ensures HowMany(results, Blocked) > 0 <==> exists c <- Dedup(Codes(results)) :: IsBlockedCode(c)
    ensures HowMany(results, Blocked) > 0 ==> strict
    ensures !strict ==> Dedup(Codes(results)) == []
  {
  }

  /** Blocked exactly when some blocked code is listed, and never when not strict. */
  lemma BlockedIsListed(h: Host, criteria: seq<Criterion>, s: Setting)
    ensures var r := Overall(Results(h, criteria, s));
            && (r.blocked <==> exists c <- r.codes :: IsBlockedCode(c))
            && (r.blocked <==> Worst(r.summary) == Blocked)
            && (!s.strict ==> !r.blocked && r.codes == [])
  {
    forall i | 0 <= i < |criteria|
      ensures WellCoded([Results(h, criteria, s)[i]], s.strict)
    {
      EvaluateFollowsMatrix(h, criteria[i], s);
      ResultAt(h, criteria, s, i);
    }
    WellCodedOneByOne(Results(h, criteria, s), s.strict);
    WellCodedResults(Results(h, criteria, s), s.strict);
  }

  lemma WellCodedOneByOne(results: seq<CriterionResult>, strict: bool)
    requires forall i :: 0 <= i < |results| ==> WellCoded([results[i]], strict)
    ensures WellCoded(results, strict)
  {
    forall i | 0 <= i < |results|
      ensures results[i].verdict == Blocked <==> IsBlockedCode(results[i].code)
      ensures !strict ==> results[i].verdict != Blocked && results[i].code == NoCode
    {
      assert WellCoded([results[i]], strict) && [results[i]][0] == results[i];
    }
  }

  lemma WorstGrows(p: seq<CriterionResult>, q: seq<CriterionResult>)
    requires |p| <= |q|
    requires forall i :: 0 <= i < |p| ==> Severity(p[i].verdict) <= Severity(q[i].verdict)
    ensures Severity(Worst(SummaryOf(p))) <= Severity(Worst(SummaryOf(q)))
  {
  }

  /** The aggregate never improves in a harder setting, nor when criteria are added. */
  lemma AggregateOnlyWorsens(h: Host, criteria: seq<Criterion>, more: seq<Criterion>, s: Setting, t: Setting)
    requires Harder(h, s, t)
    ensures var (x, y) := (Overall(Results(h, criteria, s)), Overall(Results(h, criteria + more, t)));
            && Severity(Worst(x.summary)) <= Severity(Worst(y.summary))
            && (x.blocked ==> y.blocked)
  {
    var p, q := Results(h, criteria, s), Results(h, criteria + more, t);
    forall i | 0 <= i < |p|
      ensures Severity(p[i].verdict) <= Severity(q[i].verdict)
    {
      VerdictsOnlyWorsen(h, criteria[i], s, t);
      ResultAt(h, criteria, s, i);
      ResultAt(h, criteria + more, t, i);
    }
    WorstGrows(p, q);
  }

  // ---------------------------------------------------------------------
  // Codes, thresholds and counts, spelled out
  // ---------------------------------------------------------------------

  /** Which code a criterion gets: none unless strict, then by what is wrong with the evidence and how critical it is. */
  lemma CodeMeans(h: Host, c: Criterion, s: Setting, kind: string)
    requires kind == if c.kind.Some? then Strip(c.kind.value) else ""
    ensures var r := Evaluate(h, c, s);
            var missing := kind !in s.evidence;
            var stale := !missing && Stale(h, s.evidence[kind].timing, s.now);
            && (r.code == BlockedMissing <==> s.strict && c.critical && missing)
            && (r.code == NotVerifiedMissing <==> s.strict && !c.critical && missing)
            && (r.code == BlockedStale <==> s.strict && c.critical && stale)
            && (r.code == NotVerifiedStale <==> s.strict && !c.critical && stale)
            && (r.code == BlockedThreshold <==> s.strict && c.critical && !missing && !stale && FallsShort(h, c, s))
  {
  }

  /** What a result is about: the stripped kind, and the stripped key or else the kind. */
  lemma SubjectMeans(h: Host, c: Criterion, s: Setting, kind: string)
    requires kind == if c.kind.Some? then Strip(c.kind.value) else ""
    ensures var r := Evaluate(h, c, s);
            && r.kind == kind && r.critical == c.critical
            && r.key == if c.key.Some? then Strip(c.key.value) else kind
  {
    StripTrims(TextOr(c.kind, ""));
    StripTrims(kind);
  }

  /** A threshold is missed without a known resolver, without a number, or below 80, 60 or 40 by the tier. */
  lemma ThresholdMeans(h: Host, c: Criterion, s: Setting, tier: string, value: Option<real>)
    requires tier == Lower(h, Strip(s.tier)) && Kind(c) in s.evidence && value == s.evidence[Kind(c)].value
    ensures FallsShort(h, c, s) <==>
            && c.thresholdMode.Some? && !AllSpace(c.thresholdMode.value)
            && (|| Lower(h, Strip(TextOr(c.thresholdResolver, c.thresholdMode.value))) != "dynamic_by_risk_tier"
                || value == None
                || value.value < (if tier == "critical" || tier == "high" then 80.0
                                  else if tier == "medium" then 60.0
                                  else 40.0))
  {
    if c.thresholdMode.Some? {
      BlankMeans(c.thresholdMode.value);
    }
  }

  ghost function VerdictsAt(results: seq<CriterionResult>, v: Verdict): set<nat>
  {
    set k: nat | k < |results| && results[k].verdict == v
  }

  /** The count in a summary is the number of criteria with the verdict. */
  lemma {:induction false} HowManyIsSize(results: seq<CriterionResult>, v: Verdict)
    ensures HowMany(results, v) == |VerdictsAt(results, v)|
  {
    if results != [] {
      var n := |results| - 1;
      HowManyIsSize(results[..n], v);
      assert VerdictsAt(results, v) == VerdictsAt(results[..n], v) + (if results[n].verdict == v then {n} else {});
    }
  }
}
