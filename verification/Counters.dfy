/** Extraction counters: aggregated from discovery outcomes, reconciled with what a report already says. */
module Counters {
  import opened Options
  import opened PyText
  import Extraction

  type Status = Extraction.Status

  // ---------------------------------------------------------------------
  // Aggregation of serialised outcomes
  // ---------------------------------------------------------------------

  /** An element of `discovery_outcomes`, known only by its status text. */
  datatype Entry = NotAMapping | Entry(status: string)

  function StatusName(s: Status): string
  {
    match s
    case Accepted => "accepted_for_validation"
    case TechnicalArtifact => "dropped_technical_artifact"
    case MissingAnchor => "dropped_missing_enforcement_anchor"
    case MissingSemantics => "dropped_missing_business_semantics"
    case NonBusinessSurface => "dropped_non_business_surface"
    case SchemaOnly => "dropped_schema_only"
    case NonExecutableText => "dropped_non_executable_normative_text"
  }

  const STATUS_TABLE: seq<Status> := [
    Extraction.NonBusinessSurface, Extraction.SchemaOnly, Extraction.NonExecutableText, Extraction.TechnicalArtifact,
    Extraction.MissingAnchor, Extraction.MissingSemantics, Extraction.Accepted
  ]

  /** The status of the table that goes by this name. */
  function Lookup(text: string, table: seq<Status>): Option<Status>
  {
    if table == [] then None
    else if StatusName(table[0]) == text then Some(table[0])
    else Lookup(text, table[1..])
  }

  /** What an entry counts as: nothing, or a mapping with a status of the table or another one. */
  datatype Reading = Skipped | Mapping(status: Option<Status>)

  function ReadEntry(e: Entry): Reading
  {
    if e.NotAMapping? then Skipped else Mapping(Lookup(Strip(e.status), STATUS_TABLE))
  }

  lemma NamesDiffer(s: Status, t: Status)
    ensures s != t ==> StatusName(s) != StatusName(t)
  {
    assert StatusName(Extraction.MissingAnchor)[16] != StatusName(Extraction.MissingSemantics)[16];
  }

  lemma {:induction false} LookupFinds(s: Status, table: seq<Status>)
    requires s in table
    ensures Lookup(StatusName(s), table) == Some(s)
  {
    NamesDiffer(s, table[0]);
    if table[0] != s {
      LookupFinds(s, table[1..]);
    }
  }

  lemma StatusNameIsRead(s: Status)
    ensures ReadEntry(Entry(StatusName(s))) == Mapping(Some(s))
  {
    var name := StatusName(s);
    assert Strip(name) == name by {
      assert !IsSpace(name[0]) && !IsSpace(name[|name| - 1]);
      StripTrims(name);
    }
    TableIsComplete(s);
    LookupFinds(s, STATUS_TABLE);
  }

  lemma TableIsComplete(s: Status)
    ensures s in STATUS_TABLE
  {
    var t := STATUS_TABLE;
    assert t[0] == Extraction.NonBusinessSurface && t[1] == Extraction.SchemaOnly
           && t[2] == Extraction.NonExecutableText && t[3] == Extraction.TechnicalArtifact
           && t[4] == Extraction.MissingAnchor && t[5] == Extraction.MissingSemantics && t[6] == Extraction.Accepted;
    assert s == t[0] || s == t[1] || s == t[2] || s == t[3] || s == t[4] || s == t[5] || s == t[6];
  }

  // Counting over readings.

  ghost function Mappings(readings: seq<Reading>): nat
  {
    if readings == [] then 0
    else Mappings(readings[..|readings| - 1]) + if readings[|readings| - 1].Mapping? then 1 else 0
  }

  ghost function WithStatus(readings: seq<Reading>, s: Status): nat
  {
    if readings == [] then 0
    else
      var last := readings[|readings| - 1];
      WithStatus(readings[..|readings| - 1], s) + if last == Mapping(Some(s)) then 1 else 0
  }

  ghost function WithoutStatus(readings: seq<Reading>): nat
  {
    if readings == [] then 0
    else WithoutStatus(readings[..|readings| - 1]) + if readings[|readings| - 1] == Mapping(None) then 1 else 0
  }

  ghost function Readings(entries: seq<Entry>): (r: seq<Reading>)
    ensures |r| == |entries| && forall i :: 0 <= i < |r| ==> (r[i].Mapping? <==> entries[i].Entry?)
  {
    seq(|entries|, i requires 0 <= i < |entries| => ReadEntry(entries[i]))
  }

  ghost function Recorded(entries: seq<Entry>): nat
  {
    Mappings(Readings(entries))
  }

  ghost function CountOf(entries: seq<Entry>, s: Status): nat
  {
    WithStatus(Readings(entries), s)
  }

  /** Mappings whose status is none of the seven. */
  ghost function Unrecognised(entries: seq<Entry>): nat
  {
    WithoutStatus(Readings(entries))
  }

  ghost function DroppedIn(entries: seq<Entry>): int
  {
    Recorded(entries) - CountOf(entries, Extraction.Accepted)
  }

  datatype Counts = Counts(raw: nat, dropped: nat, per: map<Status, nat>)

  const ALL_STATUSES: set<Status> := set s | s in STATUS_TABLE

  /** The counts of the first `n` readings. */
  ghost predicate Tallied(readings: seq<Reading>, n: nat, raw: int, dropped: int, per: map<Status, nat>)
    requires n <= |readings|
  {
    && (forall s :: s in per && per[s] == WithStatus(readings[..n], s))
    && raw == Mappings(readings[..n])
    && dropped == raw - WithStatus(readings[..n], Extraction.Accepted)
  }

  lemma TallyNext(readings: seq<Reading>, n: nat, raw: int, dropped: int, per: map<Status, nat>)
    requires n < |readings| && Tallied(readings, n, raw, dropped, per)
    ensures readings[n] == Skipped ==> Tallied(readings, n + 1, raw, dropped, per)
    ensures readings[n] == Mapping(None) ==> Tallied(readings, n + 1, raw + 1, dropped + 1, per)
    ensures readings[n].Mapping? && readings[n].status.Some? ==>
              var s := readings[n].status.value;
              Tallied(readings, n + 1, raw + 1, if s == Extraction.Accepted then dropped else dropped + 1,
                      per[s := per[s] + 1])
  {
    assert readings[..n + 1][..n] == readings[..n];
  }

  method AggregateCounts(entries: seq<Entry>) returns (c: Counts)
    ensures forall s :: s in c.per && c.per[s] == CountOf(entries, s)
    ensures c.raw == Recorded(entries) && c.dropped == DroppedIn(entries)
  {
    var raw, dropped := 0, 0;
    var per: map<Status, nat> := map s | s in ALL_STATUSES :: 0;
    ghost var readings := AllReadings(entries);
    EveryStatusIsListed();
    for i := 0 to |entries|
      invariant Tallied(readings, i, raw, dropped, per)
    {
      TallyNext(readings, i, raw, dropped, per);
      var reading := Examine(entries, i, readings);
      if reading.Mapping? {
        raw := raw + 1;
        if reading.status != Some(Extraction.Accepted) {
          dropped := dropped + 1;
        }
        if reading.status.Some? {
          per := per[reading.status.value := per[reading.status.value] + 1];
        }
      }
    }
    assert readings[..|readings|] == readings;
    AcceptedAtMostMappings(readings);
    c := Counts(raw, dropped, per);
  }

  lemma EveryStatusIsListed()
    ensures forall s :: s in ALL_STATUSES
  {
    forall s
      ensures s in ALL_STATUSES
    {
      TableIsComplete(s);
    }
  }

  method Examine(entries: seq<Entry>, i: nat, ghost readings: seq<Reading>) returns (reading: Reading)
    requires i < |entries| == |readings| && AreReadings(readings, entries)
    ensures reading == readings[i]
  {
    reading := ReadEntry(entries[i]);
  }

  /** The trigger keeps `ReadEntry` out of proofs that only need its values. */
  ghost predicate AreReadings(readings: seq<Reading>, entries: seq<Entry>)
    requires |readings| == |entries|
  {
    forall i: nat {:trigger ReadEntry(entries[i])} :: i < |entries| ==> readings[i] == ReadEntry(entries[i])
  }

  lemma AllReadings(entries: seq<Entry>) returns (readings: seq<Reading>)
    ensures |readings| == |entries| && AreReadings(readings, entries)
    ensures Mappings(readings) == Recorded(entries) && forall s :: WithStatus(readings, s) == CountOf(entries, s)
  {
    readings := Readings(entries);
  }

  lemma {:induction false} AcceptedAtMostMappings(readings: seq<Reading>)
    ensures WithStatus(readings, Extraction.Accepted) <= Mappings(readings)
  {
    if readings != [] {
      AcceptedAtMostMappings(readings[..|readings| - 1]);
    }
  }

  lemma {:induction false} MappingsByStatus(readings: seq<Reading>)
    ensures Mappings(readings) ==
              WithStatus(readings, Extraction.Accepted) + WithStatus(readings, Extraction.TechnicalArtifact)
              + WithStatus(readings, Extraction.MissingAnchor) + WithStatus(readings, Extraction.MissingSemantics)
              + WithStatus(readings, Extraction.NonBusinessSurface) + WithStatus(readings, Extraction.SchemaOnly)
              + WithStatus(readings, Extraction.NonExecutableText) + WithoutStatus(readings)
  {
    if readings != [] {
      MappingsByStatus(readings[..|readings| - 1]);
      var last := readings[|readings| - 1];
      if last.Mapping? && last.status.Some? {
        match last.status.value
        case Accepted =>
        case TechnicalArtifact =>
        case MissingAnchor =>
        case MissingSemantics =>
        case NonBusinessSurface =>
        case SchemaOnly =>
        case NonExecutableText =>
      }
    }
  }

  /** Every mapping is accepted, in one of the six drop categories, or of an unknown status. */
  lemma DropsByCategory(entries: seq<Entry>)
    ensures DroppedIn(entries) ==
              CountOf(entries, Extraction.TechnicalArtifact) + CountOf(entries, Extraction.MissingAnchor)
              + CountOf(entries, Extraction.MissingSemantics) + CountOf(entries, Extraction.NonBusinessSurface)
              + CountOf(entries, Extraction.SchemaOnly) + CountOf(entries, Extraction.NonExecutableText)
              + Unrecognised(entries)
  {
    MappingsByStatus(Readings(entries));
  }

  ghost function Serialised(outcomes: seq<Extraction.Outcome>): (r: seq<Entry>)
    ensures |r| == |outcomes| && forall i :: 0 <= i < |r| ==> r[i] == Entry(StatusName(outcomes[i].status))
  {
    seq(|outcomes|, i requires 0 <= i < |outcomes| => Entry(StatusName(outcomes[i].status)))
  }

  /** The readings are those of the outcomes' own statuses. */
  ghost predicate ReadAs(readings: seq<Reading>, outcomes: seq<Extraction.Outcome>)
  {
    |readings| == |outcomes| && forall i :: 0 <= i < |readings| ==> readings[i] == Mapping(Some(outcomes[i].status))
  }

  lemma SerialisedIsRead(outcomes: seq<Extraction.Outcome>)
    ensures ReadAs(Readings(Serialised(outcomes)), outcomes)
  {
    var entries := Serialised(outcomes);
    forall i | 0 <= i < |outcomes|
      ensures Readings(entries)[i] == Mapping(Some(outcomes[i].status))
    {
      StatusNameIsRead(outcomes[i].status);
    }
  }

  lemma {:induction false} StatusesAgree(readings: seq<Reading>, outcomes: seq<Extraction.Outcome>, s: Status)
    requires ReadAs(readings, outcomes)
    ensures WithStatus(readings, s) == Extraction.CountStatus(outcomes, s)
  {
    if readings != [] {
      StatusesAgree(readings[..|readings| - 1], outcomes[..|outcomes| - 1], s);
    }
  }

  lemma {:induction false} TotalsAgree(readings: seq<Reading>, outcomes: seq<Extraction.Outcome>)
    requires ReadAs(readings, outcomes)
    ensures Mappings(readings) == |outcomes| && WithoutStatus(readings) == 0
    ensures Extraction.Dropped(outcomes) == |outcomes| - Extraction.CountStatus(outcomes, Extraction.Accepted)
  {
    if readings != [] {
      TotalsAgree(readings[..|readings| - 1], outcomes[..|outcomes| - 1]);
    }
  }

  /** The aggregate of an extraction's own outcomes counts what the extraction counts, and knows every status. */
  lemma AggregateAgreesWithExtraction(outcomes: seq<Extraction.Outcome>)
    ensures forall s :: CountOf(Serialised(outcomes), s) == Extraction.CountStatus(outcomes, s)
    ensures Recorded(Serialised(outcomes)) == |outcomes| && Unrecognised(Serialised(outcomes)) == 0
    ensures DroppedIn(Serialised(outcomes)) == Extraction.Dropped(outcomes)
  {
    var readings := Readings(Serialised(outcomes));
    SerialisedIsRead(outcomes);
    forall s
      ensures WithStatus(readings, s) == Extraction.CountStatus(outcomes, s)
    {
      StatusesAgree(readings, outcomes, s);
    }
    TotalsAgree(readings, outcomes);
  }

  // ---------------------------------------------------------------------
  // Counters
  // ---------------------------------------------------------------------

  /** The numeric report fields, under their report names. */
  datatype Field =
    | RawCandidateCount
    | DroppedCandidateCount
    | CandidateCount
    | CodeCandidateCount
    | ValidatedCodeRuleCount
    | CodeValidRuleCount
    | InvalidCodeCandidateCount
    | ValidRuleCount
    | DroppedNonBusinessSurfaceCount
    | DroppedSchemaOnlyCount
    | DroppedNonExecutableTextCount
    | AcceptedBusinessEnforcementCount
    | RejectedNonBusinessSubjectCount

  /** `outcomes` is empty when the field is absent; anything iterable without mappings is a list of non-mappings. */
  datatype Report = Report(numbers: map<Field, int>, outcomes: seq<Entry>)

  datatype Counters = Counters(
    raw: int,
    dropped: int,
    candidates: int,
    validated: int,
    invalid: int,
    nonBusiness: int,
    schemaOnly: int,
    nonExecutable: int,
    accepted: int,
    rejected: int)

  datatype CountersError = DroppedMismatch | ValidatedMismatch

  type Built = Result<Counters, CountersError>

  function Checked(c: Counters): Built
  {
    if c.dropped != c.raw - c.candidates then Raised(DroppedMismatch)
    else if c.validated != c.candidates - c.invalid then Raised(ValidatedMismatch)
    else Ok(c)
  }

  function ToReportFields(c: Counters): map<Field, int>
  {
    map[RawCandidateCount := c.raw,
        DroppedCandidateCount := c.dropped,
        CandidateCount := c.candidates,
        CodeCandidateCount := c.candidates,
        ValidatedCodeRuleCount := c.validated,
        CodeValidRuleCount := c.validated,
        InvalidCodeCandidateCount := c.invalid,
        DroppedNonBusinessSurfaceCount := c.nonBusiness,
        DroppedSchemaOnlyCount := c.schemaOnly,
        DroppedNonExecutableTextCount := c.nonExecutable,
        AcceptedBusinessEnforcementCount := c.accepted,
        RejectedNonBusinessSubjectCount := c.rejected]
  }

  function AtLeastZero(n: int): nat
  {
    if n < 0 then 0 else n
  }

  function Min(a: int, b: int): int
  {
    if a < b then a else b
  }

  function Get(numbers: map<Field, int>, f: Field): nat
  {
    if f in numbers then AtLeastZero(numbers[f]) else 0
  }

  /** A field with an older name it may still go by. */
  function GetEither(numbers: map<Field, int>, f: Field, older: Field): nat
  {
    if f in numbers then AtLeastZero(numbers[f]) else Get(numbers, older)
  }

  // What the reconciliation comes to, case by case.

  datatype Split = Split(validated: nat, invalid: nat)

  function HasCandidates(numbers: map<Field, int>): bool
  {
    CandidateCount in numbers || CodeCandidateCount in numbers
  }

  function HasValidated(numbers: map<Field, int>): bool
  {
    ValidatedCodeRuleCount in numbers || CodeValidRuleCount in numbers
  }

  /** How a report divides its candidates: as stated, or the missing part taken as the remainder. */
  function SplitOf(numbers: map<Field, int>): Split
  {
    var candidates := GetEither(numbers, CandidateCount, CodeCandidateCount);
    var validated := GetEither(numbers, ValidatedCodeRuleCount, CodeValidRuleCount);
    var invalid := Get(numbers, InvalidCodeCandidateCount);
    var older := Get(numbers, ValidRuleCount);
    if !HasCandidates(numbers) then Split(validated, invalid)
    else if validated + invalid == 0 then Split(Min(candidates, older), AtLeastZero(candidates - older))
    else if !(InvalidCodeCandidateCount in numbers) then Split(validated, AtLeastZero(candidates - validated))
    else if !HasValidated(numbers) then Split(AtLeastZero(candidates - invalid), invalid)
    else Split(validated, invalid)
  }

  /** Outcomes, when there are any, decide the counts; otherwise the report's own numbers do. */
  ghost function CountersOf(r: Report): Built
  {
    var n, split := r.numbers, SplitOf(r.numbers);
    var rejected := Get(n, RejectedNonBusinessSubjectCount);
    if Recorded(r.outcomes) > 0 then
      var accepted := CountOf(r.outcomes, Extraction.Accepted);
      var validated := if HasValidated(n) then Min(split.validated, accepted) else accepted;
      Ok(Counters(Recorded(r.outcomes), DroppedIn(r.outcomes), accepted, validated, accepted - validated,
                  CountOf(r.outcomes, Extraction.NonBusinessSurface), CountOf(r.outcomes, Extraction.SchemaOnly),
                  CountOf(r.outcomes, Extraction.NonExecutableText), accepted, rejected))
    else
      var candidates, dropped := split.validated + split.invalid, Get(n, DroppedCandidateCount);
      var raw := if r.outcomes == [] then dropped + candidates else Get(n, RawCandidateCount);
      if raw != dropped + candidates then Raised(DroppedMismatch)
      else
        Ok(Counters(raw, dropped, candidates, split.validated, split.invalid,
                    Get(n, DroppedNonBusinessSurfaceCount), Get(n, DroppedSchemaOnlyCount),
                    Get(n, DroppedNonExecutableTextCount), Get(n, AcceptedBusinessEnforcementCount), rejected))
  }

  /** The first half: candidate, validated and invalid counts brought into line. */
  method DivideCandidates(numbers: map<Field, int>) returns (candidates: nat, validated: nat, invalid: nat)
    ensures Split(validated, invalid) == SplitOf(numbers)
    ensures candidates == validated + invalid
  {
    var hasCandidates := HasCandidates(numbers);
    var hasValidated := HasValidated(numbers);
    var hasInvalid := InvalidCodeCandidateCount in numbers;
    candidates := GetEither(numbers, CandidateCount, CodeCandidateCount);
    validated := GetEither(numbers, ValidatedCodeRuleCount, CodeValidRuleCount);
    invalid := Get(numbers, InvalidCodeCandidateCount);
    if hasCandidates && candidates > 0 && validated + invalid == 0 {
      validated := Min(candidates, Get(numbers, ValidRuleCount));
      invalid := AtLeastZero(candidates - validated);
    } else if hasCandidates && !hasValidated && !hasInvalid {
      validated := Min(candidates, Get(numbers, ValidRuleCount));
      invalid := AtLeastZero(candidates - validated);
    } else if hasCandidates && hasValidated && !hasInvalid {
      invalid := AtLeastZero(candidates - validated);
    } else if hasCandidates && hasInvalid && !hasValidated {
      validated := AtLeastZero(candidates - invalid);
    } else if !hasCandidates {
      candidates := validated + invalid;
    }
    if candidates != validated + invalid {
      candidates := validated + invalid;
    }
  }

  /** The diagnostic counts: aggregated when there are outcomes, else as the report has them. */
  method Diagnostics(n: map<Field, int>, counts: Counts, aggregated: bool)
    returns (nonBusiness: nat, schemaOnly: nat, nonExecutable: nat, enforcement: nat)
    requires forall s :: s in counts.per
    ensures nonBusiness ==
              if aggregated then counts.per[Extraction.NonBusinessSurface] else Get(n, DroppedNonBusinessSurfaceCount)
    ensures schemaOnly == if aggregated then counts.per[Extraction.SchemaOnly] else Get(n, DroppedSchemaOnlyCount)
    ensures nonExecutable ==
              if aggregated then counts.per[Extraction.NonExecutableText] else Get(n, DroppedNonExecutableTextCount)
    ensures enforcement ==
              if aggregated then counts.per[Extraction.Accepted] else Get(n, AcceptedBusinessEnforcementCount)
  {
    if aggregated {
      nonBusiness := counts.per[Extraction.NonBusinessSurface];
      schemaOnly := counts.per[Extraction.SchemaOnly];
      nonExecutable := counts.per[Extraction.NonExecutableText];
      enforcement := counts.per[Extraction.Accepted];
    } else {
      nonBusiness := Get(n, DroppedNonBusinessSurfaceCount);
      schemaOnly := Get(n, DroppedSchemaOnlyCount);
      nonExecutable := Get(n, DroppedNonExecutableTextCount);
      enforcement := Get(n, AcceptedBusinessEnforcementCount);
    }
  }

  method BuildCounters(r: Report) returns (built: Built)
    ensures built == CountersOf(r)
    ensures built.Ok? ==> IsBuilt(r, built.value)
  {
    built := ReconcileCounts(r);
    BuiltMeans(r);
  }

  method ReconcileCounts(r: Report) returns (built: Built)
    ensures built == CountersOf(r)
  {
    var n := r.numbers;
    var counts := AggregateCounts(r.outcomes);
    var candidates, validated, invalid := DivideCandidates(n);
    var hasOutcomes := r.outcomes != [];
    if !hasOutcomes {
      assert Recorded(r.outcomes) == 0;
    }
    AcceptedAtMostMappings(Readings(r.outcomes));
    var accepted := counts.per[Extraction.Accepted];
    var dropped: nat := if DroppedCandidateCount in n then AtLeastZero(n[DroppedCandidateCount]) else counts.dropped;
    var raw: nat := if RawCandidateCount in n then AtLeastZero(n[RawCandidateCount]) else counts.raw;
    if hasOutcomes && counts.raw > 0 {
      raw, dropped := counts.raw, counts.dropped;
      if accepted > 0 {
        candidates := accepted;
      }
    } else if !hasOutcomes {
      if raw != dropped + candidates {
        raw := dropped + candidates;
      }
    }
    var nonBusiness, schemaOnly, nonExecutable, enforcement := Diagnostics(n, counts, hasOutcomes && counts.raw > 0);
    if hasOutcomes && counts.raw > 0 {
      candidates := accepted;
      if !HasValidated(n) {
        validated := candidates;
      }
      validated := AtLeastZero(Min(validated, candidates));
      invalid := AtLeastZero(candidates - validated);
    }
    built := Checked(Counters(raw, dropped, candidates, validated, invalid, nonBusiness, schemaOnly, nonExecutable,
                              enforcement, Get(n, RejectedNonBusinessSubjectCount)));
  }

  // ---------------------------------------------------------------------
  // What the counters are, read off the report
  // ---------------------------------------------------------------------

  /** What the report states under a field: nothing or a negative number is zero. */
  ghost function Stated(n: map<Field, int>, f: Field): nat
  {
    if f in n && n[f] > 0 then n[f] else 0
  }

  /** The field under its present name if that is given, else under its older one. */
  ghost function StatedAs(n: map<Field, int>, f: Field, older: Field): nat
  {
    if f in n then Stated(n, f) else Stated(n, older)
  }

  /** The candidates the report divides into `v` validated and `i` invalid ones, by which of the three counts it gives. */
  ghost predicate Divides(n: map<Field, int>, v: int, i: int)
  {
    var candidates := StatedAs(n, CandidateCount, CodeCandidateCount);
    var validated := StatedAs(n, ValidatedCodeRuleCount, CodeValidRuleCount);
    var invalid := Stated(n, InvalidCodeCandidateCount);
    var hasCandidates := CandidateCount in n || CodeCandidateCount in n;
    var hasValidated := ValidatedCodeRuleCount in n || CodeValidRuleCount in n;
    var hasInvalid := InvalidCodeCandidateCount in n;
    && (!hasCandidates ==> v == validated && i == invalid)
    && (hasCandidates && validated + invalid == 0 ==>
          v + i == candidates && 0 <= i && v <= Stated(n, ValidRuleCount) && (i == 0 || v == Stated(n, ValidRuleCount)))
    && (hasCandidates && validated + invalid > 0 && hasValidated && hasInvalid ==> v == validated && i == invalid)
    && (hasCandidates && validated > 0 && !hasInvalid ==>
          v == validated && (if candidates > v then v + i == candidates else i == 0))
    && (hasCandidates && invalid > 0 && !hasValidated ==>
          i == invalid && (if candidates > i then v + i == candidates else v == 0))
  }

  lemma SplitDivides(n: map<Field, int>)
    ensures Divides(n, SplitOf(n).validated, SplitOf(n).invalid)
    ensures forall v, i :: Divides(n, v, i) ==> v == SplitOf(n).validated && i == SplitOf(n).invalid
  {
    var split := SplitOf(n);
    assert GetEither(n, CandidateCount, CodeCandidateCount) == StatedAs(n, CandidateCount, CodeCandidateCount);
    assert GetEither(n, ValidatedCodeRuleCount, CodeValidRuleCount)
        == StatedAs(n, ValidatedCodeRuleCount, CodeValidRuleCount);
    assert Get(n, InvalidCodeCandidateCount) == Stated(n, InvalidCodeCandidateCount);
    assert Get(n, ValidRuleCount) == Stated(n, ValidRuleCount);
  }

  /** The outcomes whose status, stripped, is `name`. */
  ghost function Named(entries: seq<Entry>, name: string): set<nat>
  {
    set k: nat | k < |entries| && entries[k].Entry? && Strip(entries[k].status) == name
  }

  ghost function MappingsAt(entries: seq<Entry>): set<nat>
  {
    set k: nat | k < |entries| && entries[k].Entry?
  }

  ghost function ReadAt(readings: seq<Reading>, r: Reading): set<nat>
  {
    set k: nat | k < |readings| && readings[k] == r
  }

  lemma {:induction false} WithStatusIsSize(readings: seq<Reading>, s: Status)
    ensures WithStatus(readings, s) == |ReadAt(readings, Mapping(Some(s)))|
  {
    if readings != [] {
      var n := |readings| - 1;
      var r := Mapping(Some(s));
      WithStatusIsSize(readings[..n], s);
      assert ReadAt(readings, r) == ReadAt(readings[..n], r) + (if readings[n] == r then {n} else {});
    }
  }

  ghost function MappedAt(readings: seq<Reading>): set<nat>
  {
    set k: nat | k < |readings| && readings[k].Mapping?
  }

  lemma {:induction false} MappingsIsSize(readings: seq<Reading>)
    ensures Mappings(readings) == |MappedAt(readings)|
  {
    if readings != [] {
      var n := |readings| - 1;
      MappingsIsSize(readings[..n]);
      assert MappedAt(readings) == MappedAt(readings[..n]) + (if readings[n].Mapping? then {n} else {});
    }
  }

  lemma {:induction false} LookupIsName(text: string, table: seq<Status>, s: Status)
    requires s in table
    ensures Lookup(text, table) == Some(s) <==> text == StatusName(s)
  {
    NamesDiffer(s, table[0]);
    if table[0] != s {
      LookupIsName(text, table[1..], s);
    } else if text != StatusName(s) && |table| > 1 {
      LookupOnlyNames(text, table[1..]);
    }
  }

  lemma {:induction false} LookupOnlyNames(text: string, table: seq<Status>)
    ensures Lookup(text, table).Some? ==> StatusName(Lookup(text, table).value) == text
  {
    if table != [] && StatusName(table[0]) != text {
      LookupOnlyNames(text, table[1..]);
    }
  }

  /** Counting a status is counting the outcomes with its name; recording is counting the mappings. */
  lemma CountsAreSizes(entries: seq<Entry>, s: Status)
    ensures CountOf(entries, s) == |Named(entries, StatusName(s))|
    ensures Recorded(entries) == |MappingsAt(entries)|
  {
    var readings := Readings(entries);
    WithStatusIsSize(readings, s);
    MappingsIsSize(readings);
    TableIsComplete(s);
    forall k: nat | k < |entries|
      ensures readings[k] == Mapping(Some(s)) <==> entries[k].Entry? && Strip(entries[k].status) == StatusName(s)
    {
      if entries[k].Entry? {
        LookupIsName(Strip(entries[k].status), STATUS_TABLE, s);
      }
    }
    assert ReadAt(readings, Mapping(Some(s))) == Named(entries, StatusName(s));
    assert MappedAt(readings) == MappingsAt(entries);
  }

  /** The counters, from the outcomes where there are any and from the report's numbers where there are none. */
  ghost predicate IsBuilt(r: Report, c: Counters)
  {
    && c.rejected == Stated(r.numbers, RejectedNonBusinessSubjectCount)
    && if MappingsAt(r.outcomes) != {} then IsCounted(r, c) else IsStated(r.numbers, c)
  }

  /** The lesser of the accepted count and the validated count the report comes to. */
  ghost predicate IsLesser(n: map<Field, int>, accepted: int, validated: int)
  {
    exists v, i :: Divides(n, v, i) && validated == if v < accepted then v else accepted
  }

  ghost predicate IsCounted(r: Report, c: Counters)
  {
    var accepted := |Named(r.outcomes, "accepted_for_validation")|;
    && c.raw == |MappingsAt(r.outcomes)| && c.candidates == accepted && c.dropped == c.raw - accepted
    && (!(ValidatedCodeRuleCount in r.numbers) && !(CodeValidRuleCount in r.numbers) ==> c.validated == accepted)
    && (ValidatedCodeRuleCount in r.numbers || CodeValidRuleCount in r.numbers ==>
          IsLesser(r.numbers, accepted, c.validated))
    && c.invalid == accepted - c.validated
    && c.nonBusiness == |Named(r.outcomes, "dropped_non_business_surface")|
    && c.schemaOnly == |Named(r.outcomes, "dropped_schema_only")|
    && c.nonExecutable == |Named(r.outcomes, "dropped_non_executable_normative_text")|
    && c.accepted == accepted
  }

  ghost predicate IsStated(n: map<Field, int>, c: Counters)
  {
    && Divides(n, c.validated, c.invalid) && c.candidates == c.validated + c.invalid
    && c.dropped == Stated(n, DroppedCandidateCount) && c.raw == c.dropped + c.candidates
    && c.nonBusiness == Stated(n, DroppedNonBusinessSurfaceCount)
    && c.schemaOnly == Stated(n, DroppedSchemaOnlyCount)
    && c.nonExecutable == Stated(n, DroppedNonExecutableTextCount)
    && c.accepted == Stated(n, AcceptedBusinessEnforcementCount)
  }

  lemma CountedMeans(r: Report, c: Counters, accepted: nat, nonBusiness: nat, schemaOnly: nat, nonExecutable: nat)
    requires CountersOf(r) == Ok(c) && Recorded(r.outcomes) > 0 && Recorded(r.outcomes) == |MappingsAt(r.outcomes)|
    requires accepted == CountOf(r.outcomes, Extraction.Accepted)
    requires nonBusiness == CountOf(r.outcomes, Extraction.NonBusinessSurface)
    requires schemaOnly == CountOf(r.outcomes, Extraction.SchemaOnly)
    requires nonExecutable == CountOf(r.outcomes, Extraction.NonExecutableText)
    ensures c.raw == |MappingsAt(r.outcomes)| && c.candidates == accepted && c.dropped == c.raw - accepted
    ensures c.validated == if HasValidated(r.numbers) && SplitOf(r.numbers).validated < accepted
                           then SplitOf(r.numbers).validated else accepted
    ensures c.invalid == accepted - c.validated && c.accepted == accepted
    ensures c.nonBusiness == nonBusiness && c.schemaOnly == schemaOnly && c.nonExecutable == nonExecutable
  {
  }

  lemma NamedCount(e: seq<Entry>, s: Status, name: string)
    requires name == StatusName(s)
    ensures CountOf(e, s) == |Named(e, name)|
  {
    CountsAreSizes(e, s);
  }

  lemma AcceptedCounts(e: seq<Entry>)
    ensures CountOf(e, Extraction.Accepted) == |Named(e, "accepted_for_validation")|
  {
    NamedCount(e, Extraction.Accepted, "accepted_for_validation");
  }

  lemma DroppedCounts(e: seq<Entry>)
    ensures CountOf(e, Extraction.NonBusinessSurface) == |Named(e, "dropped_non_business_surface")|
    ensures CountOf(e, Extraction.SchemaOnly) == |Named(e, "dropped_schema_only")|
    ensures CountOf(e, Extraction.NonExecutableText) == |Named(e, "dropped_non_executable_normative_text")|
  {
    NamedCount(e, Extraction.NonBusinessSurface, "dropped_non_business_surface");
    NamedCount(e, Extraction.SchemaOnly, "dropped_schema_only");
    NamedCount(e, Extraction.NonExecutableText, "dropped_non_executable_normative_text");
  }

  lemma CountedIsBuilt(r: Report, c: Counters)
    requires CountersOf(r) == Ok(c) && MappingsAt(r.outcomes) != {}
    ensures IsCounted(r, c)
  {
    var e := r.outcomes;
    AcceptedCounts(e);
    DroppedCounts(e);
    CountsAreSizes(e, Extraction.Accepted);
    CountedMeans(r, c, CountOf(e, Extraction.Accepted), CountOf(e, Extraction.NonBusinessSurface),
                 CountOf(e, Extraction.SchemaOnly), CountOf(e, Extraction.NonExecutableText));
    LesserOf(r.numbers, CountOf(e, Extraction.Accepted));
  }

  lemma LesserOf(n: map<Field, int>, accepted: int)
    ensures IsLesser(n, accepted, if SplitOf(n).validated < accepted then SplitOf(n).validated else accepted)
  {
    SplitDivides(n);
    assert Divides(n, SplitOf(n).validated, SplitOf(n).invalid);
  }

  lemma StatedIsBuilt(r: Report, c: Counters)
    requires CountersOf(r) == Ok(c) && Recorded(r.outcomes) == 0
    ensures IsStated(r.numbers, c)
  {
    SplitDivides(r.numbers);
  }

  lemma RejectedIsStated(r: Report, c: Counters)
    requires CountersOf(r) == Ok(c)
    ensures c.rejected == Stated(r.numbers, RejectedNonBusinessSubjectCount)
  {
  }

  lemma BuiltMeans(r: Report)
    ensures CountersOf(r).Ok? ==> IsBuilt(r, CountersOf(r).value)
  {
    if CountersOf(r).Ok? {
      var c := CountersOf(r).value;
      RejectedIsStated(r, c);
      CountsAreSizes(r.outcomes, Extraction.Accepted);
      if MappingsAt(r.outcomes) != {} {
        CountedIsBuilt(r, c);
      } else {
        StatedIsBuilt(r, c);
      }
    }
  }

  // ---------------------------------------------------------------------
  // What every build keeps
  // ---------------------------------------------------------------------

  /** The constructor checks never fail, save on a non-empty list without a single mapping whose report does not add up. */
  lemma BuildSucceedsExactly(r: Report)
    ensures var split := SplitOf(r.numbers);
            CountersOf(r).Ok? <==>
            || r.outcomes == []
            || (exists i :: 0 <= i < |r.outcomes| && r.outcomes[i].Entry?)
            || Get(r.numbers, RawCandidateCount) == Get(r.numbers, DroppedCandidateCount) + split.validated + split.invalid
  {
    SomeMapping(Readings(r.outcomes));
    assert forall i :: 0 <= i < |r.outcomes| ==> (Readings(r.outcomes)[i].Mapping? <==> r.outcomes[i].Entry?);
  }

  /** A report that fails: outcomes without a single mapping, one raw candidate and nothing to account for it. */
  lemma UnreadableOutcomesFail(r: Report)
    requires r == Report(map[RawCandidateCount := 1, DroppedCandidateCount := 0], [NotAMapping])
    ensures CountersOf(r) == Raised(DroppedMismatch)
  {
    SomeMapping(Readings(r.outcomes));
  }

  lemma {:induction false} SomeMapping(readings: seq<Reading>)
    ensures Mappings(readings) > 0 <==> exists i :: 0 <= i < |readings| && readings[i].Mapping?
  {
    if readings != [] {
      var front := readings[..|readings| - 1];
      SomeMapping(front);
      assert forall i :: 0 <= i < |front| ==> front[i] == readings[i];
    }
  }

  ghost predicate Consistent(c: Counters)
  {
    && 0 <= c.validated <= c.candidates <= c.raw
    && c.raw == c.dropped + c.candidates
    && c.candidates == c.validated + c.invalid
    && 0 <= c.dropped && 0 <= c.invalid
    && 0 <= c.nonBusiness && 0 <= c.schemaOnly && 0 <= c.nonExecutable && 0 <= c.accepted && 0 <= c.rejected
  }

  lemma BuiltCountersAreConsistent(r: Report)
    requires CountersOf(r).Ok?
    ensures Consistent(CountersOf(r).value)
    ensures var c := CountersOf(r).value;
            Recorded(r.outcomes) > 0 ==>
              c.nonBusiness + c.schemaOnly + c.nonExecutable <= c.dropped && c.accepted == c.candidates
  {
    AcceptedAtMostMappings(Readings(r.outcomes));
    DropsByCategory(r.outcomes);
  }

  ghost predicate Carries(numbers: map<Field, int>, c: Counters)
  {
    forall f <- ToReportFields(c) :: f in numbers && numbers[f] == ToReportFields(c)[f]
  }

  /** A report that states consistent counts splits into just those. */
  lemma SplitRestores(numbers: map<Field, int>, c: Counters)
    requires Consistent(c) && Carries(numbers, c)
    ensures SplitOf(numbers) == Split(c.validated, c.invalid) && HasValidated(numbers)
    ensures Get(numbers, RawCandidateCount) == c.raw && Get(numbers, DroppedCandidateCount) == c.dropped
  {
  }

  lemma DiagnosticsRestored(numbers: map<Field, int>, c: Counters)
    requires Consistent(c) && Carries(numbers, c)
    ensures Get(numbers, DroppedNonBusinessSurfaceCount) == c.nonBusiness
    ensures Get(numbers, DroppedSchemaOnlyCount) == c.schemaOnly
    ensures Get(numbers, DroppedNonExecutableTextCount) == c.nonExecutable
    ensures Get(numbers, AcceptedBusinessEnforcementCount) == c.accepted
    ensures Get(numbers, RejectedNonBusinessSubjectCount) == c.rejected
  {
  }

  /** `numbers` is read as the counters it carries. */
  ghost predicate ReadsBack(numbers: map<Field, int>, c: Counters)
  {
    && SplitOf(numbers).validated == c.validated && SplitOf(numbers).invalid == c.invalid && HasValidated(numbers)
    && Get(numbers, RawCandidateCount) == c.raw && Get(numbers, DroppedCandidateCount) == c.dropped
    && Get(numbers, DroppedNonBusinessSurfaceCount) == c.nonBusiness
    && Get(numbers, DroppedSchemaOnlyCount) == c.schemaOnly
    && Get(numbers, DroppedNonExecutableTextCount) == c.nonExecutable
    && Get(numbers, AcceptedBusinessEnforcementCount) == c.accepted
    && Get(numbers, RejectedNonBusinessSubjectCount) == c.rejected
  }

  lemma RebuildFromNumbers(again: Report, c: Counters)
    requires Consistent(c) && ReadsBack(again.numbers, c) && Recorded(again.outcomes) == 0
    ensures CountersOf(again) == Ok(c)
  {
  }

  lemma RebuildFromOutcomes(r: Report, again: Report)
    requires Recorded(r.outcomes) > 0 && again.outcomes == r.outcomes && CountersOf(r).Ok?
    requires ReadsBack(again.numbers, CountersOf(r).value)
    ensures CountersOf(again) == CountersOf(r)
  {
  }

  /**
   Building again from a report that carries built counters gives the same
   counters, whether the outcomes were kept, removed, or replaced by something
   without mappings such as a summary.
   */
  lemma RebuildIsFixpoint(r: Report, again: Report)
    requires CountersOf(r).Ok? && Carries(again.numbers, CountersOf(r).value)
    requires again.outcomes == r.outcomes || Recorded(again.outcomes) == 0
    ensures CountersOf(again) == CountersOf(r)
  {
    var c := CountersOf(r).value;
    BuiltCountersAreConsistent(r);
    SplitRestores(again.numbers, c);
    DiagnosticsRestored(again.numbers, c);
    if Recorded(again.outcomes) == 0 {
      RebuildFromNumbers(again, c);
    } else {
      RebuildFromOutcomes(r, again);
    }
  }

  /** An extraction's outcomes, hydrated: the counters are the extraction's own counts, whatever else the report says. */
  lemma ExtractionHydrates(p: Extraction.Patterns, sources: seq<Extraction.Source>, numbers: map<Field, int>)
    ensures var findings := Extraction.Findings(p, sources);
            var (cs, os) := (Extraction.Candidates(findings), Extraction.Outcomes(findings));
            var built := CountersOf(Report(numbers, Serialised(os)));
            os != [] ==>
              && built.Ok?
              && built.value.raw == |os| && built.value.candidates == |cs|
              && built.value.dropped == Extraction.Dropped(os)
              && built.value.accepted == Extraction.Enforced(os)
  {
    var findings := Extraction.Findings(p, sources);
    var os := Extraction.Outcomes(findings);
    AggregateAgreesWithExtraction(os);
    Extraction.Conservation(findings);
    Extraction.RunsAreSound(p, sources);
  }
}
