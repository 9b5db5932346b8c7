/** Rule extraction: each visible source line is classified, accepted ones become numbered candidates. */
module Extraction {
  import opened Options
  import opened PyText
  import opened Decimals

  datatype Status =
    | Accepted
    | TechnicalArtifact
    | MissingAnchor
    | MissingSemantics
    | NonBusinessSurface
    | SchemaOnly
    | NonExecutableText

  datatype SurfaceKind = BusinessDomain | MetaGovernance | SchemaConfig | DocstringOrComment | LintOrStyle | InfraFramework

  datatype Evidence =
    | ExecutableCode
    | SchemaEvidence
    | DocstringEvidence
    | LintEvidence
    | InfraEvidence
    | MetaEvidence
    | OtherEvidence

  datatype Surface = Surface(path: string, language: string)

  /** A surface and its text; `None` when the file cannot be read. */
  datatype Source = Source(surface: Surface, text: Option<string>)

  datatype Anchor = Anchor(kind: string, evidence: string)

  /** The pattern tables, as functions on lines. */
  datatype Patterns = Patterns(
    surfaceKind: (Surface, string) -> SurfaceKind,
    anchorNear: (seq<string>, nat) -> Anchor,
    semantic: string -> string,
    probe: (seq<string>, nat, string) -> string,
    technical: string -> bool,
    normative: string -> bool,
    businessContext: (string, string, string) -> bool,
    executable: (SurfaceKind, string) -> bool,
    sentence: (string, string, string) -> string)

  datatype Outcome = Outcome(
    surface: Surface,
    line: nat,
    status: Status,
    text: string,
    snippet: string,
    anchor: string,
    semantic: string,
    evidence: Evidence)

  datatype Candidate = Candidate(
    text: string,
    surface: Surface,
    line: nat,
    semantic: string,
    snippet: string,
    anchor: string,
    evidence: Evidence)

  /** A line that was looked at, with the sentence its candidate would carry. */
  datatype Finding = Finding(outcome: Outcome, sentence: string)

  // ---------------------------------------------------------------------
  // One line
  // ---------------------------------------------------------------------

  datatype Reading = Reading(status: Status, anchor: string, semantic: string, evidence: string)

  function OrIfEmpty(s: string, t: string): string
  {
    if s != "" then s else t
  }

  /** The first verdict on a line; `None` when the line says nothing of interest. */
  function Classify(p: Patterns, lines: seq<string>, i: nat): Option<Reading>
    requires i < |lines|
  {
    var current := Strip(lines[i]);
    if current == "" then None
    else
      var near := p.anchorNear(lines, i);
      var direct := p.semantic(Strip(current + " " + near.evidence));
      var semantic :=
        if near.kind != "" && direct == "" then p.semantic(p.probe(lines, i, near.evidence)) else direct;
      if near.kind == "" && p.technical(current) then
        Some(Reading(TechnicalArtifact, near.kind, semantic, OrIfEmpty(near.evidence, current)))
      else if near.kind != "" then
        Some(Reading(if semantic != "" then Accepted else MissingSemantics, near.kind, semantic,
                     OrIfEmpty(near.evidence, current)))
      else if p.normative(current) then Some(Reading(MissingAnchor, "", p.semantic(current), current))
      else None
  }

  function FinalStatus(first: Status, kind: SurfaceKind, anchored: bool, context: bool, executable: bool): Status
  {
    if kind == SchemaConfig && !context then SchemaOnly
    else if kind != BusinessDomain then NonBusinessSurface
    else if !anchored then MissingAnchor
    else if !context then MissingSemantics
    else if !executable then NonExecutableText
    else first
  }

  function EvidenceOf(kind: SurfaceKind, anchored: bool, context: bool, executable: bool): Evidence
  {
    if kind == BusinessDomain && anchored && context && executable then ExecutableCode
    else match kind
         case SchemaConfig => SchemaEvidence
         case DocstringOrComment => DocstringEvidence
         case LintOrStyle => LintEvidence
         case InfraFramework => InfraEvidence
         case MetaGovernance => MetaEvidence
         case BusinessDomain => OtherEvidence
  }

  function Truncated(s: string): string
  {
    if |s| <= 220 then s else s[..220]
  }

  /** What a line contributes, if anything. */
  function Look(p: Patterns, surface: Surface, lines: seq<string>, i: nat): Option<Finding>
    requires i < |lines|
  {
    var line := Strip(lines[i]);
    var reading := Classify(p, lines, i);
    if line == "" || reading.None? then None
    else
      var r := reading.value;
      var kind := p.surfaceKind(surface, line);
      var anchored, context, executable :=
        r.anchor != "", p.businessContext(line, r.anchor, r.semantic), p.executable(kind, line);
      Some(Finding(
        Outcome(surface, i + 1, FinalStatus(r.status, kind, anchored, context, executable), line,
                Truncated(OrIfEmpty(r.evidence, line)), r.anchor, r.semantic,
                EvidenceOf(kind, anchored, context, executable)),
        p.sentence(r.semantic, p.probe(lines, i, r.evidence), surface.path)))
  }

  /** How status, evidence, anchor and meaning of an outcome hang together; no outcome is a technical artifact. */
  ghost predicate Sound(o: Outcome)
  {
    && (o.status == Accepted <==> o.evidence == ExecutableCode && o.semantic != "")
    && (o.status == SchemaOnly || o.status == NonBusinessSurface <==>
        o.evidence != ExecutableCode && o.evidence != OtherEvidence)
    && (o.status == SchemaOnly ==> o.evidence == SchemaEvidence)
    && (o.status == MissingAnchor <==> o.evidence == OtherEvidence && o.anchor == "")
    && (o.status == NonExecutableText ==> o.evidence == OtherEvidence)
    && (o.status == MissingSemantics && o.evidence == ExecutableCode ==> o.semantic == "")
    && (o.evidence == ExecutableCode ==> o.anchor != "")
    && o.status != TechnicalArtifact
  }

  lemma LookIsSound(p: Patterns, surface: Surface, lines: seq<string>, i: nat)
    requires i < |lines| && Look(p, surface, lines, i).Some?
    ensures var o := Look(p, surface, lines, i).value.outcome;
            Sound(o) && o.surface == surface && o.line == i + 1 && o.text == Strip(lines[i]) != ""
  {
  }

  /** Which lines are reported at all: visible ones with an anchor near, of a technical look, or of a normative one. */
  lemma ReportedLines(p: Patterns, surface: Surface, lines: seq<string>, i: nat)
    requires i < |lines|
    ensures Look(p, surface, lines, i).Some? <==>
            var line := Strip(lines[i]);
            line != "" && (p.anchorNear(lines, i).kind != "" || p.technical(line) || p.normative(line))
  {
  }

  /** What each status means, in terms of the surface, the anchor, the business context and the evidence. */
  lemma StatusMeans(p: Patterns, surface: Surface, lines: seq<string>, i: nat, o: Outcome)
    requires i < |lines| && Look(p, surface, lines, i).Some? && o == Look(p, surface, lines, i).value.outcome
    ensures o.anchor == p.anchorNear(lines, i).kind
    ensures var (kind, context) := (p.surfaceKind(surface, o.text), p.businessContext(o.text, o.anchor, o.semantic));
            var executable := p.executable(kind, o.text);
            && (o.status == SchemaOnly <==> kind == SchemaConfig && !context)
            && (o.status == NonBusinessSurface <==> kind != BusinessDomain && !(kind == SchemaConfig && !context))
            && (o.status == MissingAnchor <==> kind == BusinessDomain && o.anchor == "")
            && (o.status == MissingSemantics <==>
                kind == BusinessDomain && o.anchor != "" && (!context || (executable && o.semantic == "")))
            && (o.status == NonExecutableText <==> kind == BusinessDomain && o.anchor != "" && context && !executable)
            && (o.status == Accepted <==>
                kind == BusinessDomain && o.anchor != "" && context && executable && o.semantic != "")
  {
  }

  /** The meaning of a line: from the line with its anchor, and for anchored lines else from its surroundings. */
  lemma SemanticMeans(p: Patterns, surface: Surface, lines: seq<string>, i: nat, o: Outcome)
    requires i < |lines| && Look(p, surface, lines, i).Some? && o == Look(p, surface, lines, i).value.outcome
    ensures var near := p.anchorNear(lines, i);
            var direct := p.semantic(Strip(o.text + " " + near.evidence));
            near.kind != "" ==> o.semantic == if direct != "" then direct else p.semantic(p.probe(lines, i, near.evidence))
  {
  }

  /** A snippet is the anchor's text, or the line itself, cut to 220 characters. */
  lemma SnippetMeans(p: Patterns, surface: Surface, lines: seq<string>, i: nat, o: Outcome)
    requires i < |lines| && Look(p, surface, lines, i).Some? && o == Look(p, surface, lines, i).value.outcome
    ensures var near := p.anchorNear(lines, i);
            var whole := if near.evidence != "" && (near.kind != "" || p.technical(o.text)) then near.evidence else o.text;
            o.snippet <= whole && (|whole| <= 220 ==> o.snippet == whole) && (|whole| > 220 ==> |o.snippet| == 220)
  {
  }

  // ---------------------------------------------------------------------
  // Whole runs
  // ---------------------------------------------------------------------

  function AsSeq<T>(o: Option<T>): seq<T>
  {
    if o.Some? then [o.value] else []
  }

  /** What each line contributes. */
  ghost function Looks(p: Patterns, surface: Surface, lines: seq<string>): (r: seq<Option<Finding>>)
    ensures |r| == |lines|
  {
    seq(|lines|, i requires 0 <= i < |lines| => Look(p, surface, lines, i))
  }

  /** The findings among the first `n`, in order. */
  ghost function Taken(looks: seq<Option<Finding>>, n: nat): seq<Finding>
    requires n <= |looks|
  {
    if n == 0 then [] else Taken(looks, n - 1) + AsSeq(looks[n - 1])
  }

  ghost function FindingsIn(p: Patterns, surface: Surface, lines: seq<string>): seq<Finding>
  {
    Taken(Looks(p, surface, lines), |lines|)
  }

  ghost function FindingsOf(p: Patterns, source: Source): seq<Finding>
  {
    if source.text.None? then []
    else
      var lines := SplitLines(source.text.value);
      FindingsIn(p, source.surface, lines)
  }

  ghost function Findings(p: Patterns, sources: seq<Source>): seq<Finding>
  {
    if sources == [] then []
    else Findings(p, sources[..|sources| - 1]) + FindingsOf(p, sources[|sources| - 1])
  }

  ghost function Outcomes(findings: seq<Finding>): (r: seq<Outcome>)
    ensures |r| == |findings| && forall k :: 0 <= k < |r| ==> r[k] == findings[k].outcome
  {
    seq(|findings|, k requires 0 <= k < |findings| => findings[k].outcome)
  }

  ghost function AcceptedOnly(findings: seq<Finding>): seq<Finding>
  {
    if findings == [] then []
    else
      var front, last := AcceptedOnly(findings[..|findings| - 1]), findings[|findings| - 1];
      if last.outcome.status == Accepted then front + [last] else front
  }

  function CandidateText(number: nat, sentence: string): string
  {
    "BR-C" + Pad3(number) + ": " + sentence
  }

  function CandidateOf(f: Finding, number: nat): Candidate
  {
    var o := f.outcome;
    Candidate(CandidateText(number, f.sentence), o.surface, o.line, o.semantic, o.snippet, o.anchor, o.evidence)
  }

  ghost function Candidates(findings: seq<Finding>): (r: seq<Candidate>)
  {
    var accepted := AcceptedOnly(findings);
    seq(|accepted|, k requires 0 <= k < |accepted| => CandidateOf(accepted[k], k + 1))
  }

  lemma AddOutcome(findings: seq<Finding>, f: Finding)
    ensures Outcomes(findings + [f]) == Outcomes(findings) + [f.outcome]
    ensures f.outcome.status != Accepted ==> Candidates(findings + [f]) == Candidates(findings)
    ensures f.outcome.status == Accepted ==>
              Candidates(findings + [f]) == Candidates(findings) + [CandidateOf(f, |Candidates(findings)| + 1)]
  {
    assert (findings + [f])[..|findings|] == findings;
  }

  /** The candidates are the accepted findings in order, numbered from 1. */
  method ExtractCandidates(p: Patterns, sources: seq<Source>) returns (candidates: seq<Candidate>, outcomes: seq<Outcome>)
    ensures outcomes == Outcomes(Findings(p, sources))
    ensures candidates == Candidates(Findings(p, sources))
  {
    candidates, outcomes := [], [];
    var idx: nat := 1;
    ghost var found: seq<Finding> := [];
    for s := 0 to |sources|
      invariant found == Findings(p, sources[..s])
      invariant outcomes == Outcomes(found) && candidates == Candidates(found) && idx == |candidates| + 1
    {
      assert sources[..s + 1][..s] == sources[..s];
      if sources[s].text.Some? {
        var lines := SplitLines(sources[s].text.value);
        candidates, outcomes, idx, found := ScanLines(p, sources[s].surface, lines, candidates, outcomes, idx, found);
      }
    }
    assert sources[..|sources|] == sources;
  }

  /** The inner loop: the lines of one readable source, continuing the lists and the number. */
  method ScanLines(p: Patterns, surface: Surface, lines: seq<string>, before: seq<Candidate>, seen: seq<Outcome>,
                   first: nat, ghost already: seq<Finding>)
    returns (candidates: seq<Candidate>, outcomes: seq<Outcome>, idx: nat, ghost found: seq<Finding>)
    requires seen == Outcomes(already) && before == Candidates(already) && first == |before| + 1
    ensures found == already + FindingsIn(p, surface, lines)
    ensures outcomes == Outcomes(found) && candidates == Candidates(found) && idx == |candidates| + 1
  {
    candidates, outcomes, idx, found := before, seen, first, already;
    ghost var looks := AllLooks(p, surface, lines);
    for i := 0 to |lines|
      invariant found == already + Taken(looks, i)
      invariant outcomes == Outcomes(found) && candidates == Candidates(found) && idx == |candidates| + 1
    {
      TakenNext(already, looks, i);
      var look := Examine(p, surface, lines, i, looks);
      if look.None? {
        continue;
      }
      candidates, outcomes, idx := Record(look.value, candidates, outcomes, idx, found);
      found := found + [look.value];
    }
  }

  method Examine(p: Patterns, surface: Surface, lines: seq<string>, i: nat, ghost looks: seq<Option<Finding>>)
    returns (look: Option<Finding>)
    requires i < |lines| == |looks| && AreLooks(looks, p, surface, lines)
    ensures look == looks[i]
  {
    look := Look(p, surface, lines, i);
  }

  /** `looks` is what each line contributes; the trigger keeps `Look` out of proofs that only need its values. */
  ghost predicate AreLooks(looks: seq<Option<Finding>>, p: Patterns, surface: Surface, lines: seq<string>)
    requires |looks| == |lines|
  {
    forall i: nat {:trigger Look(p, surface, lines, i)} :: i < |lines| ==> looks[i] == Look(p, surface, lines, i)
  }

  lemma TakenNext(already: seq<Finding>, looks: seq<Option<Finding>>, n: nat)
    requires n < |looks|
    ensures looks[n].None? ==> already + Taken(looks, n + 1) == already + Taken(looks, n)
    ensures looks[n].Some? ==> already + Taken(looks, n + 1) == already + Taken(looks, n) + [looks[n].value]
  {
  }

  lemma AllLooks(p: Patterns, surface: Surface, lines: seq<string>) returns (looks: seq<Option<Finding>>)
    ensures |looks| == |lines| && AreLooks(looks, p, surface, lines)
    ensures Taken(looks, |lines|) == FindingsIn(p, surface, lines)
  {
    looks := Looks(p, surface, lines);
  }

  /** One line that was looked at: its outcome, and a candidate when it was accepted. */
  method Record(look: Finding, before: seq<Candidate>, seen: seq<Outcome>, number: nat, ghost found: seq<Finding>)
    returns (candidates: seq<Candidate>, outcomes: seq<Outcome>, idx: nat)
    requires seen == Outcomes(found) && before == Candidates(found) && number == |before| + 1
    ensures outcomes == Outcomes(found + [look]) && candidates == Candidates(found + [look]) && idx == |candidates| + 1
  {
    AddOutcome(found, look);
    candidates, outcomes, idx := before, seen + [look.outcome], number;
    if look.outcome.status == Accepted {
      candidates := candidates + [CandidateOf(look, number)];
      idx := number + 1;
    }
  }

  // ---------------------------------------------------------------------
  // What every run keeps
  // ---------------------------------------------------------------------

  function CountStatus(outcomes: seq<Outcome>, s: Status): nat
  {
    if outcomes == [] then 0
    else CountStatus(outcomes[..|outcomes| - 1], s) + if outcomes[|outcomes| - 1].status == s then 1 else 0
  }

  function Dropped(outcomes: seq<Outcome>): nat
  {
    if outcomes == [] then 0
    else Dropped(outcomes[..|outcomes| - 1]) + if outcomes[|outcomes| - 1].status != Accepted then 1 else 0
  }

  /** Outcomes with executable evidence that were accepted. */
  function Enforced(outcomes: seq<Outcome>): nat
  {
    if outcomes == [] then 0
    else
      var last := outcomes[|outcomes| - 1];
      Enforced(outcomes[..|outcomes| - 1]) + if last.status == Accepted && last.evidence == ExecutableCode then 1 else 0
  }

  lemma {:induction false} TakenAreSound(looks: seq<Option<Finding>>, n: nat)
    requires n <= |looks| && forall i :: 0 <= i < n && looks[i].Some? ==> Sound(looks[i].value.outcome)
    ensures forall f <- Taken(looks, n) :: Sound(f.outcome)
  {
    if n > 0 {
      TakenAreSound(looks, n - 1);
    }
  }

  lemma LinesAreSound(p: Patterns, surface: Surface, lines: seq<string>)
    ensures forall f <- FindingsIn(p, surface, lines) :: Sound(f.outcome)
  {
    var looks := Looks(p, surface, lines);
    forall i | 0 <= i < |lines| && looks[i].Some?
      ensures Sound(looks[i].value.outcome)
    {
      LookIsSound(p, surface, lines, i);
    }
    TakenAreSound(looks, |lines|);
  }

  lemma {:induction false} FindingsAreSound(p: Patterns, sources: seq<Source>)
    ensures forall f <- Findings(p, sources) :: Sound(f.outcome)
  {
    if sources != [] {
      FindingsAreSound(p, sources[..|sources| - 1]);
      var last := sources[|sources| - 1];
      if last.text.Some? {
        LinesAreSound(p, last.surface, SplitLines(last.text.value));
      }
    }
  }

  /** Every outcome of every run is sound. */
  lemma RunsAreSound(p: Patterns, sources: seq<Source>)
    ensures forall o <- Outcomes(Findings(p, sources)) :: Sound(o)
  {
    FindingsAreSound(p, sources);
    var findings := Findings(p, sources);
    forall o | o in Outcomes(findings)
      ensures Sound(o)
    {
      var k :| 0 <= k < |findings| && Outcomes(findings)[k] == o;
      assert findings[k] in findings;
    }
  }

  lemma {:induction false} Conservation(findings: seq<Finding>)
    ensures var outcomes := Outcomes(findings);
            && |outcomes| == |Candidates(findings)| + Dropped(outcomes)
            && |Candidates(findings)| == CountStatus(outcomes, Accepted)
            && ((forall o <- outcomes :: Sound(o)) ==> Enforced(outcomes) == |Candidates(findings)|)
  {
    if findings != [] {
      var front, last := findings[..|findings| - 1], findings[|findings| - 1];
      Conservation(front);
      assert findings == front + [last];
      AddOutcome(front, last);
      var outcomes := Outcomes(findings);
      assert last.outcome == outcomes[|outcomes| - 1] && last.outcome in outcomes;
      assert forall o <- Outcomes(front) :: o in outcomes;
      assert outcomes[..|outcomes| - 1] == Outcomes(front) && outcomes[|outcomes| - 1] == last.outcome;
    }
  }

  lemma {:induction false} DroppedByCategory(outcomes: seq<Outcome>)
    ensures Dropped(outcomes) == CountStatus(outcomes, TechnicalArtifact) + CountStatus(outcomes, MissingAnchor)
                               + CountStatus(outcomes, MissingSemantics) + CountStatus(outcomes, NonBusinessSurface)
                               + CountStatus(outcomes, SchemaOnly) + CountStatus(outcomes, NonExecutableText)
  {
    if outcomes != [] {
      DroppedByCategory(outcomes[..|outcomes| - 1]);
    }
  }

  /** The positions of the accepted outcomes, in order. */
  ghost function AcceptedAt(outcomes: seq<Outcome>): seq<nat>
  {
    if outcomes == [] then []
    else
      var n := |outcomes| - 1;
      AcceptedAt(outcomes[..n]) + if outcomes[n].status == Accepted then [n] else []
  }

  lemma {:induction false} AcceptedAtIsExact(outcomes: seq<Outcome>)
    ensures forall k :: k in AcceptedAt(outcomes) <==> 0 <= k < |outcomes| && outcomes[k].status == Accepted
    ensures forall i, j :: 0 <= i < j < |AcceptedAt(outcomes)| ==> AcceptedAt(outcomes)[i] < AcceptedAt(outcomes)[j]
  {
    if outcomes != [] {
      var front := outcomes[..|outcomes| - 1];
      AcceptedAtIsExact(front);
      assert forall k :: 0 <= k < |front| ==> front[k] == outcomes[k];
      assert forall i :: 0 <= i < |AcceptedAt(front)| ==> AcceptedAt(front)[i] in AcceptedAt(front);
    }
  }

  ghost predicate Mirrors(c: Candidate, o: Outcome)
  {
    && c.surface == o.surface && c.line == o.line && c.semantic == o.semantic
    && c.snippet == o.snippet && c.anchor == o.anchor && c.evidence == o.evidence
  }

  ghost predicate NumberedText(text: string, n: nat)
  {
    exists sentence: string :: text == CandidateText(n, sentence)
  }

  /** Candidate k is the k-th accepted outcome, with number k + 1 in its text. */
  lemma {:induction false} CandidatesAreAcceptedOutcomes(findings: seq<Finding>)
    ensures var (cs, os) := (Candidates(findings), Outcomes(findings));
            && |cs| == |AcceptedAt(os)|
            && forall k :: 0 <= k < |cs| ==>
                             && AcceptedAt(os)[k] < |os|
                             && Mirrors(cs[k], os[AcceptedAt(os)[k]])
                             && NumberedText(cs[k].text, k + 1)
  {
    if findings != [] {
      var front, last := findings[..|findings| - 1], findings[|findings| - 1];
      CandidatesAreAcceptedOutcomes(front);
      assert findings == front + [last];
      AddOutcome(front, last);
      var os := Outcomes(findings);
      assert os[..|os| - 1] == Outcomes(front) && os[|os| - 1] == last.outcome;
      if last.outcome.status == Accepted {
        var n := |Candidates(front)| + 1;
        assert NumberedText(CandidateOf(last, n).text, n);
      }
    }
  }
}
