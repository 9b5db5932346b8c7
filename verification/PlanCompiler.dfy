/** From free plan text to requirement contracts. */
module PlanCompiler {
  import opened PyText
  import opened Casing
  import opened Decimals
  import opened Slugs
  import opened TextOrder
  import opened ContractValidator

  // ---------------------------------------------------------------------
  // Segments
  // ---------------------------------------------------------------------

  datatype Kind = Forbidden | UserVisible | StateKind | Required

  datatype Segment = Segment(kind: Kind, text: string)

  /** `- ` or `* ` at the start of a line. */
  function DropBullet(s: string): string
  {
    if |s| >= 2 && s[0] in "-*" && IsSpace(s[1]) then s[Lead(s, 1)..] else s
  }

  function DigitsEnd(h: Host, s: string, i: nat): (n: nat)
    requires i <= |s|
    ensures i <= n <= |s|
    decreases |s| - i
  {
    if i < |s| && IsDigit(h, s[i]) then DigitsEnd(h, s, i + 1) else i
  }

  /** `12. ` or `12) ` at the start of a line. */
  function DropNumber(h: Host, s: string): string
  {
    var n := DigitsEnd(h, s, 0);
    if 0 < n && n + 1 < |s| && s[n] in ".)" && IsSpace(s[n + 1]) then s[Lead(s, n + 1)..] else s
  }

  /** Every run of whitespace becomes one blank. */
  function Squeeze(s: string): string
    decreases |s|
  {
    if s == "" then ""
    else if IsSpace(s[0]) then " " + Squeeze(s[Lead(s, 0)..])
    else [s[0]] + Squeeze(s[1..])
  }

  function NormalizeLine(h: Host, raw: string): string
  {
    Strip(Squeeze(DropNumber(h, DropBullet(Strip(raw)))))
  }

  const HEADINGS: set<string> :=
    {"required behavior", "forbidden behavior", "user-visible expectation", "state expectation", "code hotspots",
     "verification methods", "acceptance tests", "done criteria"}

  predicate IsHeading(h: Host, line: string)
  {
    (line != "" && line[0] == '#') || Lower(h, line) in HEADINGS
  }

  predicate LooksForbidden(h: Host, text: string)
  {
    StartsWithAny(Strip(Lower(h, text)),
      ["no ", "never ", "must not ", "do not ", "don't ", "without ", "forbid ", "forbidden "])
  }

  const SURFACE_WORDS: seq<string> := ["render", "visible", "output", "surface", "next action"]
  const STATE_WORDS: seq<string> := ["receipt", "presentation", "evidence", "state", "persist", "matrix"]

  function InferKind(h: Host, text: string): Kind
  {
    var lower := Lower(h, text);
    if LooksForbidden(h, text) then Forbidden
    else if ContainsAny(lower, SURFACE_WORDS) then UserVisible
    else if ContainsAny(lower, STATE_WORDS) then StateKind
    else Required
  }

  predicate IsMeta(h: Host, text: string)
  {
    ContainsAny(" " + Lower(h, text) + " ",
      [" phase ", " gate ", "decision semantics", "state-machine", "review package", "reason-code contract"])
  }

  /** The segments of the parts that are not blank. */
  ghost function Atoms(h: Host, parts: seq<string>): seq<Segment>
  {
    if parts == [] then []
    else
      var text := Strip(parts[0]);
      (if text == "" then [] else [Segment(InferKind(h, text), text)]) + Atoms(h, parts[1..])
  }

  ghost function LineSegments(h: Host, raw: string): seq<Segment>
  {
    var line := NormalizeLine(h, raw);
    if line == "" || IsHeading(h, line) then [] else Atoms(h, SplitAt(line, ';'))
  }

  ghost function LinesSegments(h: Host, lines: seq<string>): seq<Segment>
  {
    if lines == [] then [] else LineSegments(h, lines[0]) + LinesSegments(h, lines[1..])
  }

  ghost function SegmentsOf(h: Host, text: string): seq<Segment>
  {
    LinesSegments(h, SplitLines(text))
  }

  lemma AtomsNext(h: Host, parts: seq<string>, i: nat, before: seq<Segment>, found: seq<Segment>)
    requires i < |parts|
    requires found == if Strip(parts[i]) == "" then [] else [Segment(InferKind(h, Strip(parts[i])), Strip(parts[i]))]
    ensures before + Atoms(h, parts[i..]) == (before + found) + Atoms(h, parts[i + 1..])
  {
    assert parts[i..][1..] == parts[i + 1..];
  }

  method AtomSegments(h: Host, parts: seq<string>) returns (segments: seq<Segment>)
    ensures segments == Atoms(h, parts)
  {
    segments := [];
    for i := 0 to |parts|
      invariant segments + Atoms(h, parts[i..]) == Atoms(h, parts)
    {
      var text := Strip(parts[i]);
      var found := if text == "" then [] else [Segment(InferKind(h, text), text)];
      AtomsNext(h, parts, i, segments, found);
      segments := segments + found;
    }
    assert segments + Atoms(h, []) == segments;
  }

  method SegmentLine(h: Host, raw: string) returns (segments: seq<Segment>)
    ensures segments == LineSegments(h, raw)
  {
    var line := NormalizeLine(h, raw);
    if line == "" || IsHeading(h, line) {
      return [];
    }
    segments := AtomSegments(h, SplitAt(line, ';'));
  }

  lemma LinesNext(h: Host, lines: seq<string>, i: nat, before: seq<Segment>, found: seq<Segment>)
    requires i < |lines| && found == LineSegments(h, lines[i])
    ensures before + LinesSegments(h, lines[i..]) == (before + found) + LinesSegments(h, lines[i + 1..])
  {
    assert lines[i..][1..] == lines[i + 1..];
  }

  method SegmentPlanText(h: Host, text: string) returns (segments: seq<Segment>)
    ensures segments == SegmentsOf(h, text)
  {
    var lines := SplitLines(text);
    segments := [];
    for i := 0 to |lines|
      invariant segments + LinesSegments(h, lines[i..]) == LinesSegments(h, lines)
    {
      var found := SegmentLine(h, lines[i]);
      LinesNext(h, lines, i, segments, found);
      segments := segments + found;
    }
    assert segments + LinesSegments(h, []) == segments;
  }

  /** Every segment text is trimmed and not blank. */
  ghost predicate Visible(segments: seq<Segment>)
  {
    forall s <- segments :: s.text != "" && Trimmed(s.text)
  }

  lemma {:induction false} AtomsVisible(h: Host, parts: seq<string>)
    ensures Visible(Atoms(h, parts))
  {
    if parts != [] {
      StripTrims(parts[0]);
      AtomsVisible(h, parts[1..]);
    }
  }

  lemma {:induction false} LinesVisible(h: Host, lines: seq<string>)
    ensures Visible(LinesSegments(h, lines))
  {
    if lines != [] {
      AtomsVisible(h, SplitAt(NormalizeLine(h, lines[0]), ';'));
      LinesVisible(h, lines[1..]);
    }
  }

  /** The segments that are not about governance itself. */
  ghost function WithoutMeta(h: Host, segments: seq<Segment>): seq<Segment>
  {
    if segments == [] then []
    else (if IsMeta(h, segments[0].text) then [] else [segments[0]]) + WithoutMeta(h, segments[1..])
  }

  lemma {:induction false} WithoutMetaVisible(h: Host, segments: seq<Segment>)
    requires Visible(segments)
    ensures Visible(WithoutMeta(h, segments))
  {
    if segments != [] {
      WithoutMetaVisible(h, segments[1..]);
    }
  }

  lemma WithoutMetaNext(h: Host, segments: seq<Segment>, i: nat, before: seq<Segment>, found: seq<Segment>)
    requires i < |segments| && found == if IsMeta(h, segments[i].text) then [] else [segments[i]]
    ensures before + WithoutMeta(h, segments[i..]) == (before + found) + WithoutMeta(h, segments[i + 1..])
  {
    assert segments[i..][1..] == segments[i + 1..];
  }

  method DropMeta(h: Host, segments: seq<Segment>) returns (kept: seq<Segment>)
    ensures kept == WithoutMeta(h, segments)
  {
    kept := [];
    for i := 0 to |segments|
      invariant kept + WithoutMeta(h, segments[i..]) == WithoutMeta(h, segments)
    {
      var found := if IsMeta(h, segments[i].text) then [] else [segments[i]];
      WithoutMetaNext(h, segments, i, kept, found);
      kept := kept + found;
    }
    assert kept + WithoutMeta(h, []) == kept;
  }

  /** Ticket, task and plan in turn; when nothing is left, the unfiltered plan. */
  ghost function PlanSegments(h: Host, ticket: string, task: string, plan: string): seq<Segment>
  {
    var all := WithoutMeta(h, SegmentsOf(h, ticket)) + WithoutMeta(h, SegmentsOf(h, task))
               + WithoutMeta(h, SegmentsOf(h, plan));
    if all == [] then SegmentsOf(h, plan) else all
  }

  lemma PlanSegmentsVisible(h: Host, ticket: string, task: string, plan: string)
    ensures Visible(PlanSegments(h, ticket, task, plan))
  {
    LinesVisible(h, SplitLines(ticket));
    LinesVisible(h, SplitLines(task));
    LinesVisible(h, SplitLines(plan));
    WithoutMetaVisible(h, SegmentsOf(h, ticket));
    WithoutMetaVisible(h, SegmentsOf(h, task));
    WithoutMetaVisible(h, SegmentsOf(h, plan));
  }

  // ---------------------------------------------------------------------
  // One requirement
  // ---------------------------------------------------------------------

  function RequiredText(s: Segment): string
  {
    if s.kind == Forbidden then "Prevent forbidden behavior: " + s.text else "Implement: " + s.text
  }

  function ForbiddenText(s: Segment): string
  {
    if s.kind == Forbidden then s.text else "forbid state: " + s.text + " not satisfied"
  }

  const FLOW_WORDS: seq<string> := ["flow", "gate", "decision", "implement", "review", "live", "command"]
  const RECEIPT_WORDS: seq<string> := ["receipt", "presentation", "decision", "evidence"]

  /** The methods a requirement calls for, sorted by name. */
  function InferMethods(h: Host, title: string, required: string, forbidden: string, kind: Kind): seq<string>
  {
    var text := Lower(h, title + " " + required + " " + forbidden);
    [BEHAVIORAL]
    + (if ContainsAny(text, FLOW_WORDS) then [LIVE_FLOW] else [])
    + (if kind == StateKind || ContainsAny(text, RECEIPT_WORDS) then [RECEIPTS] else [])
    + [STATIC]
    + (if kind == UserVisible || ContainsAny(text, SURFACE_WORDS) then [USER_SURFACE] else [])
  }

  const RUNTIME := "governance_runtime/"
  const ENTRYPOINTS := RUNTIME + "entrypoints/"

  function InferHotspots(h: Host, text: string): seq<string>
  {
    var lower := Lower(h, text);
    [ENTRYPOINTS + "session_reader.py"]
    + (if Contains(lower, "implement") then [ENTRYPOINTS + "implement_start.py"] else [])
    + (if ContainsAny(lower, ["review-decision", "review decision"])
       then [ENTRYPOINTS + "review_decision_persist.py"] else [])
    + (if ContainsAny(lower, ["implementation-decision", "implementation decision"])
       then [ENTRYPOINTS + "implementation_decision_persist.py"] else [])
    + (if Contains(lower, "receipt") then [RUNTIME + "receipts/match.py"] else [])
  }

  function Cut(s: string, n: nat): string
  {
    if |s| <= n then s else s[..n]
  }

  function OwnerFragment(h: Host, slug: string, digest: string): string
  {
    var base := Cut(slug, 36);
    (if base == "" then "requirement" else base) + "-" + Lower(h, digest)
  }

  function OwnerTest(fragment: string): string
  {
    "tests/test_contract_" + fragment + ".py::test_" + fragment
  }

  function RequirementId(h: Host, scope: string, idx: nat, digest: string): string
  {
    Upper(h, "R-" + scope + "-" + Pad3(idx) + "-" + digest)
  }

  function LiveKey(h: Host, scope: string, idx: nat, slug: string): string
  {
    "lp-" + Lower(h, scope) + "-" + Pad3(idx) + "-" + Cut(slug, 20)
  }

  function DigestOf(h: Host, scope: string, idx: nat, title: string): string
  {
    h.digest(scope + "|" + Decimal(idx) + "|" + title)
  }

  function TextItems(texts: seq<string>): Value
  {
    Items(seq(|texts|, i requires 0 <= i < |texts| => Text(texts[i])))
  }

  function DoneRule(): Value
  {
    Dict(map["require_all_verifications_pass" := Flag(true),
             "fail_closed_on_missing_evidence" := Flag(true),
             "fail_on_forbidden_observation" := Flag(true)])
  }

  function ContractOf(id: string, title: string, owner: string, live: string, required: string, forbidden: string,
                      hotspots: seq<string>, methods: seq<string>): Contract
  {
    map["id" := Text(id),
        "title" := Text(title),
        "criticality" := Text("important"),
        "owner_test" := Text(owner),
        "live_proof_key" := Text(live),
        "required_behavior" := TextItems([required]),
        "forbidden_behavior" := TextItems([forbidden]),
        "user_visible_expectation" := TextItems(["User can observe outcome for: " + title]),
        "state_expectation" := TextItems(["state evidence recorded for: " + title]),
        "code_hotspots" := TextItems(hotspots),
        "verification_methods" := TextItems(methods),
        "acceptance_tests" := TextItems([owner]),
        "done_rule" := DoneRule()]
  }

  /** The contract of the segment at one-based position `idx`. */
  function RequirementContract(h: Host, scope: string, idx: nat, s: Segment, slug: string, digest: string): Contract
  {
    var required, forbidden := RequiredText(s), ForbiddenText(s);
    ContractOf(RequirementId(h, scope, idx, digest), s.text, OwnerTest(OwnerFragment(h, slug, digest)),
               LiveKey(h, scope, idx, slug), required, forbidden, InferHotspots(h, s.text),
               InferMethods(h, s.text, required, forbidden, s.kind))
  }

  // ---------------------------------------------------------------------
  // A whole compilation
  // ---------------------------------------------------------------------

  ghost function DigestAt(h: Host, scope: string, segments: seq<Segment>, k: nat): Hex8
    requires k < |segments|
  {
    DigestOf(h, scope, k + 1, segments[k].text)
  }

  ghost function SlugAt(h: Host, segments: seq<Segment>, k: nat): string
    requires k < |segments|
  {
    SlugOf(h, segments[k].text)
  }

  /** What makes the `k`-th owner test its own: the cut slug and the digest. */
  ghost function FragmentAt(h: Host, scope: string, segments: seq<Segment>, k: nat): string
    requires k < |segments|
  {
    OwnerFragment(h, SlugAt(h, segments, k), DigestAt(h, scope, segments, k))
  }

  ghost function ContractAt(h: Host, scope: string, segments: seq<Segment>, k: nat): Contract
    requires k < |segments|
  {
    RequirementContract(h, scope, k + 1, segments[k], SlugAt(h, segments, k), DigestAt(h, scope, segments, k))
  }

  ghost function Contracts(h: Host, scope: string, segments: seq<Segment>): seq<Contract>
  {
    seq(|segments|, k requires 0 <= k < |segments| => ContractAt(h, scope, segments, k))
  }

  ghost function Fragments(h: Host, scope: string, segments: seq<Segment>): seq<string>
  {
    seq(|segments|, k requires 0 <= k < |segments| => FragmentAt(h, scope, segments, k))
  }

  /** A forbidden state to watch for, tied to its requirement. */
  datatype Negative = Negative(
    id: string,
    requirementId: string,
    forbiddenState: string,
    methods: seq<string>,
    acceptanceTests: seq<string>,
    blocking: bool)

  datatype VerificationSeed = VerificationSeed(id: string, status: map<string, string>)

  datatype CompletionSeed = CompletionSeed(
    id: string,
    overall: string,
    evidenceRefs: seq<string>,
    missingEvidence: seq<string>)

  datatype Notes = EmptyPlanText | Counted(total: nat, kinds: seq<(Kind, nat)>)

  datatype Compiled = Compiled(
    requirements: seq<Contract>,
    negatives: seq<Negative>,
    verification: seq<VerificationSeed>,
    completion: seq<CompletionSeed>,
    notes: Notes)

  ghost predicate SameRequirement(r: Contract, n: Negative, v: VerificationSeed, c: CompletionSeed)
  {
    && Get(r, "id") == Text(n.requirementId) && v.id == n.requirementId && c.id == n.requirementId
    && n.id == "N-" + n.requirementId && n.blocking
    && Get(r, "forbidden_behavior") == TextItems([n.forbiddenState])
    && Get(r, "verification_methods") == TextItems(n.methods)
    && Get(r, "acceptance_tests") == TextItems(n.acceptanceTests)
  }

  ghost predicate NothingVerified(v: VerificationSeed, c: CompletionSeed)
  {
    && v.status.Keys == METHODS && (forall m <- METHODS :: v.status[m] == "UNVERIFIED")
    && c.overall == "UNVERIFIED" && c.evidenceRefs == [] && c.missingEvidence == ["initial-verification-pending"]
  }

  /** The four outputs for one segment line up: same requirement, same methods, same tests, nothing verified yet. */
  ghost predicate LinedUp(r: Contract, n: Negative, v: VerificationSeed, c: CompletionSeed)
  {
    SameRequirement(r, n, v, c) && NothingVerified(v, c)
  }

  const UNVERIFIED: map<string, string> :=
    map[STATIC := "UNVERIFIED", BEHAVIORAL := "UNVERIFIED", USER_SURFACE := "UNVERIFIED",
        LIVE_FLOW := "UNVERIFIED", RECEIPTS := "UNVERIFIED"]

  lemma LookUps(id: string, title: string, owner: string, live: string, required: string, forbidden: string,
                hotspots: seq<string>, methods: seq<string>)
    ensures var c := ContractOf(id, title, owner, live, required, forbidden, hotspots, methods);
            && Get(c, "id") == Text(id) && Get(c, "forbidden_behavior") == TextItems([forbidden])
            && Get(c, "verification_methods") == TextItems(methods) && Get(c, "acceptance_tests") == TextItems([owner])
  {
  }

  lemma SeedsAreUnverified(id: string)
    ensures NothingVerified(VerificationSeed(id, UNVERIFIED),
                            CompletionSeed(id, "UNVERIFIED", [], ["initial-verification-pending"]))
  {
  }

  method CompileSegment(h: Host, scope: string, idx: nat, s: Segment)
    returns (contract: Contract, negative: Negative, verification: VerificationSeed, completion: CompletionSeed)
    ensures contract == RequirementContract(h, scope, idx, s, SlugOf(h, s.text), DigestOf(h, scope, idx, s.text))
    ensures LinedUp(contract, negative, verification, completion)
  {
    var slug := Slug(h, s.text);
    var digest := DigestOf(h, scope, idx, s.text);
    var id := RequirementId(h, scope, idx, digest);
    var methods := InferMethods(h, s.text, RequiredText(s), ForbiddenText(s), s.kind);
    var test := OwnerTest(OwnerFragment(h, slug, digest));
    contract := RequirementContract(h, scope, idx, s, slug, digest);
    negative := Negative("N-" + id, id, ForbiddenText(s), methods, [test], true);
    verification := VerificationSeed(id, UNVERIFIED);
    completion := CompletionSeed(id, "UNVERIFIED", [], ["initial-verification-pending"]);
    LookUps(id, s.text, test, LiveKey(h, scope, idx, slug), RequiredText(s), ForbiddenText(s), InferHotspots(h, s.text),
            methods);
    SeedsAreUnverified(id);
  }

  // Notes: how many segments of each kind.

  ghost function CountKind(segments: seq<Segment>, kind: Kind): nat
  {
    if segments == [] then 0
    else CountKind(segments[..|segments| - 1], kind) + if segments[|segments| - 1].kind == kind then 1 else 0
  }

  /** Every segment is counted under exactly one kind. */
  lemma {:induction false} KindsAddUp(segments: seq<Segment>)
    ensures |segments| == CountKind(segments, Forbidden) + CountKind(segments, Required)
                        + CountKind(segments, StateKind) + CountKind(segments, UserVisible)
  {
    if segments != [] {
      KindsAddUp(segments[..|segments| - 1]);
    }
  }

  function KindName(kind: Kind): string
  {
    match kind
    case Forbidden => "forbidden_behavior"
    case Required => "required_behavior"
    case StateKind => "state_expectation"
    case UserVisible => "user_visible_expectation"
  }

  /** The kinds sorted by name. */
  const KINDS: seq<Kind> := [Forbidden, Required, StateKind, UserVisible]

  lemma KindsAreSorted()
    ensures forall i, j :: 0 <= i < j < |KINDS| ==> Less(KindName(KINDS[i]), KindName(KINDS[j]))
    ensures forall kind: Kind :: kind in KINDS
  {
    assert KINDS[0] == Forbidden && KINDS[1] == Required && KINDS[2] == StateKind && KINDS[3] == UserVisible;
    forall kind: Kind
      ensures kind in KINDS
    {
      assert kind == KINDS[0] || kind == KINDS[1] || kind == KINDS[2] || kind == KINDS[3];
    }
  }

  /** How often each of `kinds` occurs, in that order, without those that do not. */
  ghost function KindCounts(segments: seq<Segment>, kinds: seq<Kind>): seq<(Kind, nat)>
  {
    if kinds == [] then []
    else
      var front, last := KindCounts(segments, kinds[..|kinds| - 1]), kinds[|kinds| - 1];
      if CountKind(segments, last) > 0 then front + [(last, CountKind(segments, last))] else front
  }

  ghost function NotesOf(segments: seq<Segment>): Notes
  {
    if segments == [] then EmptyPlanText else Counted(|segments|, KindCounts(segments, KINDS))
  }

  method CountKinds(segments: seq<Segment>) returns (counts: map<Kind, nat>)
    ensures forall kind :: kind in counts <==> CountKind(segments, kind) > 0
    ensures forall kind <- counts :: counts[kind] == CountKind(segments, kind)
  {
    counts := map[];
    for i := 0 to |segments|
      invariant forall kind :: kind in counts <==> CountKind(segments[..i], kind) > 0
      invariant forall kind <- counts :: counts[kind] == CountKind(segments[..i], kind)
    {
      var kind := segments[i].kind;
      assert segments[..i + 1][..i] == segments[..i];
      counts := counts[kind := if kind in counts then counts[kind] + 1 else 1];
    }
    assert segments[..|segments|] == segments;
  }

  method SegmentNotes(segments: seq<Segment>) returns (notes: Notes)
    ensures notes == Counted(|segments|, KindCounts(segments, KINDS))
  {
    var counts := CountKinds(segments);
    var kinds: seq<(Kind, nat)> := [];
    for i := 0 to |KINDS|
      invariant kinds == KindCounts(segments, KINDS[..i])
    {
      assert KINDS[..i + 1][..i] == KINDS[..i];
      if KINDS[i] in counts {
        kinds := kinds + [(KINDS[i], counts[KINDS[i]])];
      }
    }
    assert KINDS[..|KINDS|] == KINDS;
    notes := Counted(|segments|, kinds);
  }

  method CollectSegments(h: Host, plan: string, ticket: string, task: string) returns (segments: seq<Segment>)
    ensures segments == PlanSegments(h, ticket, task, plan)
  {
    var fromTicket := SegmentPlanText(h, ticket);
    fromTicket := DropMeta(h, fromTicket);
    var fromTask := SegmentPlanText(h, task);
    fromTask := DropMeta(h, fromTask);
    var unfiltered := SegmentPlanText(h, plan);
    var fromPlan := DropMeta(h, unfiltered);
    segments := fromTicket + fromTask + fromPlan;
    if segments == [] {
      segments := unfiltered;
    }
  }

  /** The four outputs of one segment. */
  datatype Bundle = Bundle(contract: Contract, negative: Negative, verification: VerificationSeed,
                           completion: CompletionSeed)

  /** The lists hold, entry by entry, the parts of bundles that each line up. */
  ghost predicate Unzips(r: Compiled, n: nat)
  {
    && |r.requirements| == |r.negatives| == |r.verification| == |r.completion| == n
    && forall k :: 0 <= k < n ==> LinedUp(r.requirements[k], r.negatives[k], r.verification[k], r.completion[k])
  }

  function AddBundle(r: Compiled, b: Bundle): Compiled
  {
    r.(requirements := r.requirements + [b.contract], negatives := r.negatives + [b.negative],
       verification := r.verification + [b.verification], completion := r.completion + [b.completion])
  }

  lemma AddBundleUnzips(r: Compiled, b: Bundle, n: nat)
    requires Unzips(r, n) && LinedUp(b.contract, b.negative, b.verification, b.completion)
    ensures Unzips(AddBundle(r, b), n + 1)
  {
  }

  lemma ContractsAt(h: Host, scope: string, segments: seq<Segment>, n: nat)
    requires n < |segments|
    ensures Contracts(h, scope, segments)[n] == ContractAt(h, scope, segments, n)
  {
  }

  lemma SliceNext<T>(all: seq<T>, n: nat)
    requires n < |all|
    ensures all[..n + 1] == all[..n] + [all[n]]
  {
  }

  /** One contract per segment, in order and numbered from one, with its three companions. */
  method CompileSegments(h: Host, scope: string, segments: seq<Segment>) returns (r: Compiled)
    ensures r.requirements == Contracts(h, scope, segments) && Unzips(r, |segments|)
    ensures r.notes == Counted(|segments|, KindCounts(segments, KINDS))
  {
    var notes := SegmentNotes(segments);
    ghost var contracts := Contracts(h, scope, segments);
    r := Compiled([], [], [], [], notes);
    for i := 0 to |segments|
      invariant r.requirements == contracts[..i] && Unzips(r, i) && r.notes == notes
    {
      var c, n, v, d := CompileSegment(h, scope, i + 1, segments[i]);
      AddBundleUnzips(r, Bundle(c, n, v, d), i);
      ContractsAt(h, scope, segments, i);
      SliceNext(contracts, i);
      r := AddBundle(r, Bundle(c, n, v, d));
    }
    assert contracts[..|segments|] == contracts;
  }

  method CompilePlan(h: Host, plan: string, scope: string, ticket: string, task: string) returns (r: Compiled)
    ensures r.requirements == Contracts(h, scope, PlanSegments(h, ticket, task, plan))
    ensures Unzips(r, |r.requirements|)
    ensures r.notes == NotesOf(PlanSegments(h, ticket, task, plan))
  {
    var segments := CollectSegments(h, plan, ticket, task);
    if segments == [] {
      return Compiled([], [], [], [], EmptyPlanText);
    }
    r := CompileSegments(h, scope, segments);
  }
}
