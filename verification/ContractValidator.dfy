/** The judge of requirement contracts: any mapping in, a list of errors out. */
module ContractValidator {
  import opened PyText
  import opened Casing
  import opened Decimals
  import opened Distinct

  /** The values a contract field can hold; `Other` is anything else, with its truth value and its text. */
  datatype Value =
    | Nothing
    | Flag(b: bool)
    | Text(s: string)
    | Items(items: seq<Value>)
    | Dict(fields: map<string, Value>)
    | Other(truthy: bool, repr: string)

  type Contract = map<string, Value>

  /** How lists and mappings are written out when they are turned into text. */
  type Show = Value -> string

  predicate Truthy(v: Value)
  {
    match v
    case Nothing => false
    case Flag(b) => b
    case Text(s) => s != ""
    case Items(items) => items != []
    case Dict(fields) => fields != map[]
    case Other(truthy, _) => truthy
  }

  function Str(show: Show, v: Value): string
  {
    match v
    case Nothing => "None"
    case Flag(b) => if b then "True" else "False"
    case Text(s) => s
    case Items(_) => show(v)
    case Dict(_) => show(v)
    case Other(_, repr) => repr
  }

  function Get(c: Contract, field: string): Value
  {
    if field in c then c[field] else Nothing
  }

  function AsText(show: Show, v: Value): string
  {
    if Truthy(v) then Strip(Str(show, v)) else ""
  }

  predicate IsTextItem(v: Value)
  {
    v.Text? && Strip(v.s) != ""
  }

  predicate IsTextList(v: Value)
  {
    v.Items? && v.items != [] && forall k :: 0 <= k < |v.items| ==> IsTextItem(v.items[k])
  }

  // ---------------------------------------------------------------------
  // One contract
  // ---------------------------------------------------------------------

  datatype ContractError =
    | MissingField(field: string)
    | InvalidCriticality
    | EmptyTextField(field: string)
    | InvalidStringList(field: string)
    | InvalidMethods
    | ReleaseNeedsLiveFlow
    | DecisionNeedsReceipts
    | InvalidDoneRule
    | InvalidDoneFlag(key: string)

  const REQUIRED_FIELDS: seq<string> :=
    ["id", "title", "criticality", "owner_test", "live_proof_key", "required_behavior", "forbidden_behavior",
     "user_visible_expectation", "state_expectation", "code_hotspots", "verification_methods", "acceptance_tests",
     "done_rule"]

  const TEXT_FIELDS: seq<string> := ["id", "title", "owner_test", "live_proof_key"]

  const LIST_FIELDS: seq<string> :=
    ["required_behavior", "forbidden_behavior", "user_visible_expectation", "state_expectation", "code_hotspots",
     "acceptance_tests"]

  const DONE_FLAGS: seq<string> :=
    ["require_all_verifications_pass", "fail_closed_on_missing_evidence", "fail_on_forbidden_observation"]

  const CRITICALITIES: set<string> := {"release_blocking", "important", "normal"}

  const STATIC := "static_verification"
  const BEHAVIORAL := "behavioral_verification"
  const USER_SURFACE := "user_surface_verification"
  const LIVE_FLOW := "live_flow_verification"
  const RECEIPTS := "receipts_verification"

  const METHODS: set<string> := {STATIC, BEHAVIORAL, USER_SURFACE, LIVE_FLOW, RECEIPTS}

  /** The stripped texts of a list. */
  function StripItems(items: seq<Value>): (r: set<string>)
  {
    set k | 0 <= k < |items| && items[k].Text? :: Strip(items[k].s)
  }

  predicate TouchesDecision(h: Host, show: Show, forbidden: Value)
  {
    forbidden.Items?
    && exists k :: 0 <= k < |forbidden.items| && Contains(Lower(h, Str(show, forbidden.items[k])), "decision")
  }

  predicate TouchesPresentation(h: Host, show: Show, title: Value)
  {
    Contains(Lower(h, AsText(show, title)), "presentation")
  }

  /** Whether decision or presentation text makes receipts mandatory. */
  predicate NeedsReceipts(h: Host, show: Show, c: Contract)
  {
    TouchesDecision(h, show, Get(c, "forbidden_behavior")) || TouchesPresentation(h, show, Get(c, "title"))
  }

  predicate MissesLiveFlow(show: Show, c: Contract, methods: set<string>)
  {
    AsText(show, Get(c, "criticality")) == "release_blocking" && LIVE_FLOW !in methods
  }

  predicate MissesReceipts(h: Host, show: Show, c: Contract, methods: set<string>)
  {
    NeedsReceipts(h, show, c) && RECEIPTS !in methods
  }

  predicate MethodsOk(h: Host, show: Show, c: Contract, methods: set<string>)
  {
    methods <= METHODS && !MissesLiveFlow(show, c, methods) && !MissesReceipts(h, show, c, methods)
  }

  predicate Present(c: Contract, fields: seq<string>)
  {
    forall f <- fields :: f in c
  }

  predicate NoneBlank(show: Show, c: Contract, fields: seq<string>)
  {
    forall f <- fields :: AsText(show, Get(c, f)) != ""
  }

  predicate AllTextLists(c: Contract, fields: seq<string>)
  {
    forall f <- fields :: IsTextList(Get(c, f))
  }

  predicate AllFlags(fields: map<string, Value>, keys: seq<string>)
  {
    forall k <- keys :: Get(fields, k).Flag?
  }

  /** A contract as it should be: the independent statement the error list is measured against. */
  predicate WellFormed(h: Host, show: Show, c: Contract)
  {
    var methods, rule := Get(c, "verification_methods"), Get(c, "done_rule");
    && Present(c, REQUIRED_FIELDS)
    && AsText(show, Get(c, "criticality")) in CRITICALITIES
    && NoneBlank(show, c, TEXT_FIELDS)
    && AllTextLists(c, LIST_FIELDS)
    && IsTextList(methods) && MethodsOk(h, show, c, StripItems(methods.items))
    && rule.Dict? && AllFlags(rule.fields, DONE_FLAGS)
  }

  // The error list, check by check in the order of the checks.

  /** The errors of the fields that fail a check, in the order of the fields. */
  ghost function Failing(fields: seq<string>, bad: string -> bool, error: string -> ContractError): seq<ContractError>
  {
    if fields == [] then []
    else
      var front, last := Failing(fields[..|fields| - 1], bad, error), fields[|fields| - 1];
      if bad(last) then front + [error(last)] else front
  }

  function Absent(c: Contract): string -> bool
  {
    f => f !in c
  }

  function Blank(show: Show, c: Contract): string -> bool
  {
    f => AsText(show, Get(c, f)) == ""
  }

  function NotATextList(c: Contract): string -> bool
  {
    f => !IsTextList(Get(c, f))
  }

  function NotAFlag(fields: map<string, Value>): string -> bool
  {
    k => !Get(fields, k).Flag?
  }

  function AsMissing(f: string): ContractError { MissingField(f) }
  function AsEmpty(f: string): ContractError { EmptyTextField(f) }
  function AsBadList(f: string): ContractError { InvalidStringList(f) }
  function AsBadFlag(k: string): ContractError { InvalidDoneFlag(k) }

  function CriticalityErrors(show: Show, c: Contract): seq<ContractError>
  {
    if AsText(show, Get(c, "criticality")) !in CRITICALITIES then [InvalidCriticality] else []
  }

  ghost function MethodErrors(unknown: bool, noLiveFlow: bool, noReceipts: bool): seq<ContractError>
  {
    (if unknown then [InvalidMethods] else [])
    + (if noLiveFlow then [ReleaseNeedsLiveFlow] else [])
    + (if noReceipts then [DecisionNeedsReceipts] else [])
  }

  ghost function MethodsErrors(h: Host, show: Show, c: Contract): seq<ContractError>
  {
    var value := Get(c, "verification_methods");
    if !IsTextList(value) then [InvalidStringList("verification_methods")]
    else
      var methods := StripItems(value.items);
      MethodErrors(!(methods <= METHODS), MissesLiveFlow(show, c, methods), MissesReceipts(h, show, c, methods))
  }

  ghost function DoneRuleErrors(rule: Value): seq<ContractError>
  {
    if rule.Dict? then Failing(DONE_FLAGS, NotAFlag(rule.fields), AsBadFlag) else [InvalidDoneRule]
  }

  /** The missing fields alone, or else the errors of every check in turn. */
  ghost function ErrorsOf(h: Host, show: Show, c: Contract): seq<ContractError>
  {
    var missing := Failing(REQUIRED_FIELDS, Absent(c), AsMissing);
    if missing != [] then missing
    else
      CriticalityErrors(show, c)
      + Failing(TEXT_FIELDS, Blank(show, c), AsEmpty)
      + Failing(LIST_FIELDS, NotATextList(c), AsBadList)
      + MethodsErrors(h, show, c)
      + DoneRuleErrors(Get(c, "done_rule"))
  }

  // Which errors are due, check by check.

  ghost predicate IsMissing(c: Contract, fields: seq<string>, e: ContractError)
  {
    e.MissingField? && e.field in fields && e.field !in c
  }

  ghost predicate IsBadCriticality(show: Show, c: Contract, e: ContractError)
  {
    e == InvalidCriticality && AsText(show, Get(c, "criticality")) !in CRITICALITIES
  }

  ghost predicate IsBadText(show: Show, c: Contract, fields: seq<string>, e: ContractError)
  {
    e.EmptyTextField? && e.field in fields && AsText(show, Get(c, e.field)) == ""
  }

  ghost predicate IsBadList(c: Contract, fields: seq<string>, e: ContractError)
  {
    e.InvalidStringList? && e.field in fields && !IsTextList(Get(c, e.field))
  }

  /** The errors three failed method checks stand for. */
  ghost predicate IsMethodError(unknown: bool, noLiveFlow: bool, noReceipts: bool, e: ContractError)
  {
    (unknown && e == InvalidMethods) || (noLiveFlow && e == ReleaseNeedsLiveFlow)
    || (noReceipts && e == DecisionNeedsReceipts)
  }

  ghost predicate IsBadMethods(h: Host, show: Show, c: Contract, e: ContractError)
  {
    var value := Get(c, "verification_methods");
    if !IsTextList(value) then e == InvalidStringList("verification_methods")
    else
      var methods := StripItems(value.items);
      IsMethodError(!(methods <= METHODS), MissesLiveFlow(show, c, methods), MissesReceipts(h, show, c, methods), e)
  }

  ghost predicate IsBadDoneRule(rule: Value, e: ContractError)
  {
    if !rule.Dict? then e == InvalidDoneRule
    else e.InvalidDoneFlag? && e.key in DONE_FLAGS && !Get(rule.fields, e.key).Flag?
  }

  /** Exactly the errors that are due: the missing fields alone, or else every failed check. */
  ghost predicate IsDue(h: Host, show: Show, c: Contract, e: ContractError)
  {
    if !Present(c, REQUIRED_FIELDS) then IsMissing(c, REQUIRED_FIELDS, e)
    else
      || IsBadCriticality(show, c, e)
      || IsBadText(show, c, TEXT_FIELDS, e)
      || IsBadList(c, LIST_FIELDS, e)
      || IsBadMethods(h, show, c, e)
      || IsBadDoneRule(Get(c, "done_rule"), e)
  }

  // The error list holds exactly what is due.

  lemma {:induction false} FailingMembers(fields: seq<string>, bad: string -> bool, error: string -> ContractError,
                                          e: ContractError)
    ensures e in Failing(fields, bad, error) <==> exists f <- fields :: bad(f) && e == error(f)
  {
    if fields != [] {
      var front, last := fields[..|fields| - 1], fields[|fields| - 1];
      FailingMembers(front, bad, error, e);
      assert fields == front + [last];
    }
  }

  lemma MissingAreDue(c: Contract, fields: seq<string>, e: ContractError)
    ensures e in Failing(fields, Absent(c), AsMissing) <==> IsMissing(c, fields, e)
  {
    FailingMembers(fields, Absent(c), AsMissing, e);
  }

  lemma NoneMissing(c: Contract, fields: seq<string>)
    ensures Failing(fields, Absent(c), AsMissing) == [] <==> Present(c, fields)
  {
    var missing := Failing(fields, Absent(c), AsMissing);
    if missing != [] {
      assert missing[0] in missing;
      MissingAreDue(c, fields, missing[0]);
    }
    if f :| f in fields && f !in c {
      MissingAreDue(c, fields, MissingField(f));
    }
  }

  lemma TextsAreDue(show: Show, c: Contract, fields: seq<string>, e: ContractError)
    ensures e in Failing(fields, Blank(show, c), AsEmpty) <==> IsBadText(show, c, fields, e)
  {
    FailingMembers(fields, Blank(show, c), AsEmpty, e);
  }

  lemma ListsAreDue(c: Contract, fields: seq<string>, e: ContractError)
    ensures e in Failing(fields, NotATextList(c), AsBadList) <==> IsBadList(c, fields, e)
  {
    FailingMembers(fields, NotATextList(c), AsBadList, e);
  }

  lemma MethodsAreDue(h: Host, show: Show, c: Contract, e: ContractError)
    ensures e in MethodsErrors(h, show, c) <==> IsBadMethods(h, show, c, e)
  {
  }

  lemma DoneRuleIsDue(rule: Value, e: ContractError)
    ensures e in DoneRuleErrors(rule) <==> IsBadDoneRule(rule, e)
  {
    if rule.Dict? {
      FailingMembers(DONE_FLAGS, NotAFlag(rule.fields), AsBadFlag, e);
    }
  }

  /** Every error listed is due and every error due is listed. */
  lemma ErrorsAreDue(h: Host, show: Show, c: Contract, e: ContractError)
    ensures e in ErrorsOf(h, show, c) <==> IsDue(h, show, c, e)
  {
    NoneMissing(c, REQUIRED_FIELDS);
    MissingAreDue(c, REQUIRED_FIELDS, e);
    TextsAreDue(show, c, TEXT_FIELDS, e);
    ListsAreDue(c, LIST_FIELDS, e);
    MethodsAreDue(h, show, c, e);
    DoneRuleIsDue(Get(c, "done_rule"), e);
  }

  /** The list is empty exactly for well-formed contracts. */
  lemma NoErrorsIsWellFormed(h: Host, show: Show, c: Contract)
    ensures ErrorsOf(h, show, c) == [] <==> WellFormed(h, show, c)
  {
    var errors := ErrorsOf(h, show, c);
    if errors != [] {
      assert errors[0] in errors;
      ErrorsAreDue(h, show, c, errors[0]);
      NothingDueIsWellFormed(h, show, c);
    }
    if !WellFormed(h, show, c) {
      var e := DueError(h, show, c);
      ErrorsAreDue(h, show, c, e);
    }
  }

  /** The loop over the fields of one check. */
  method CheckFields(fields: seq<string>, bad: string -> bool, error: string -> ContractError)
    returns (errors: seq<ContractError>)
    ensures errors == Failing(fields, bad, error)
  {
    errors := [];
    for i := 0 to |fields|
      invariant errors == Failing(fields[..i], bad, error)
    {
      assert fields[..i + 1][..i] == fields[..i];
      if bad(fields[i]) {
        errors := errors + [error(fields[i])];
      }
    }
    assert fields[..|fields|] == fields;
  }

  method CheckMethods(h: Host, show: Show, c: Contract) returns (errors: seq<ContractError>)
    ensures errors == MethodsErrors(h, show, c)
  {
    var value := Get(c, "verification_methods");
    if !IsTextList(value) {
      return [InvalidStringList("verification_methods")];
    }
    var methods := StripItems(value.items);
    errors := JudgeMethods(!(methods <= METHODS), MissesLiveFlow(show, c, methods), MissesReceipts(h, show, c, methods));
  }

  method JudgeMethods(unknown: bool, noLiveFlow: bool, noReceipts: bool) returns (errors: seq<ContractError>)
    ensures errors == MethodErrors(unknown, noLiveFlow, noReceipts)
  {
    errors := [];
    if unknown {
      errors := errors + [InvalidMethods];
    }
    if noLiveFlow {
      errors := errors + [ReleaseNeedsLiveFlow];
    }
    if noReceipts {
      errors := errors + [DecisionNeedsReceipts];
    }
  }

  method CheckDoneRule(rule: Value) returns (errors: seq<ContractError>)
    ensures errors == DoneRuleErrors(rule)
  {
    if !rule.Dict? {
      return [InvalidDoneRule];
    }
    errors := CheckFields(DONE_FLAGS, NotAFlag(rule.fields), AsBadFlag);
  }

  lemma DueMethodError(h: Host, show: Show, c: Contract) returns (e: ContractError)
    requires IsTextList(Get(c, "verification_methods"))
    requires !MethodsOk(h, show, c, StripItems(Get(c, "verification_methods").items))
    ensures IsBadMethods(h, show, c, e)
  {
    var methods := StripItems(Get(c, "verification_methods").items);
    e := if !(methods <= METHODS) then InvalidMethods
         else if MissesReceipts(h, show, c, methods) then DecisionNeedsReceipts
         else ReleaseNeedsLiveFlow;
  }

  lemma NoMethodError(h: Host, show: Show, c: Contract, e: ContractError)
    requires IsTextList(Get(c, "verification_methods"))
    requires MethodsOk(h, show, c, StripItems(Get(c, "verification_methods").items))
    ensures !IsBadMethods(h, show, c, e)
  {
  }

  /** A contract that is not well formed has an error due. */
  lemma DueError(h: Host, show: Show, c: Contract) returns (e: ContractError)
    requires !WellFormed(h, show, c)
    ensures IsDue(h, show, c, e)
  {
    var methods, rule := Get(c, "verification_methods"), Get(c, "done_rule");
    if !Present(c, REQUIRED_FIELDS) {
      var f :| f in REQUIRED_FIELDS && f !in c;
      e := MissingField(f);
    } else if AsText(show, Get(c, "criticality")) !in CRITICALITIES {
      e := InvalidCriticality;
    } else if !NoneBlank(show, c, TEXT_FIELDS) {
      var f :| f in TEXT_FIELDS && AsText(show, Get(c, f)) == "";
      e := EmptyTextField(f);
    } else if !AllTextLists(c, LIST_FIELDS) {
      var f :| f in LIST_FIELDS && !IsTextList(Get(c, f));
      e := InvalidStringList(f);
    } else if !IsTextList(methods) {
      e := InvalidStringList("verification_methods");
    } else if !MethodsOk(h, show, c, StripItems(methods.items)) {
      e := DueMethodError(h, show, c);
    } else if !rule.Dict? {
      e := InvalidDoneRule;
    } else {
      var k :| k in DONE_FLAGS && !Get(rule.fields, k).Flag?;
      e := InvalidDoneFlag(k);
    }
  }

  lemma NothingDue(h: Host, show: Show, c: Contract, e: ContractError)
    requires WellFormed(h, show, c)
    ensures !IsDue(h, show, c, e)
  {
    NoMethodError(h, show, c, e);
  }

  /** No error is due exactly when the contract is well formed. */
  lemma NothingDueIsWellFormed(h: Host, show: Show, c: Contract)
    ensures (forall e :: !IsDue(h, show, c, e)) <==> WellFormed(h, show, c)
  {
    if WellFormed(h, show, c) {
      forall e
        ensures !IsDue(h, show, c, e)
      {
        NothingDue(h, show, c, e);
      }
    } else {
      var e := DueError(h, show, c);
    }
  }

  /** The checks in the order they are reported; missing fields end the check early. */
  method ValidateContract(h: Host, show: Show, c: Contract) returns (errors: seq<ContractError>)
    ensures errors == ErrorsOf(h, show, c)
    ensures forall e :: e in errors <==> IsDue(h, show, c, e)
    ensures errors == [] <==> WellFormed(h, show, c)
  {
    errors := RunChecks(h, show, c);
    NoErrorsIsWellFormed(h, show, c);
    forall e
      ensures e in errors <==> IsDue(h, show, c, e)
    {
      ErrorsAreDue(h, show, c, e);
    }
  }

  method RunChecks(h: Host, show: Show, c: Contract) returns (errors: seq<ContractError>)
    ensures errors == ErrorsOf(h, show, c)
  {
    errors := CheckFields(REQUIRED_FIELDS, Absent(c), AsMissing);
    if errors != [] {
      return;
    }
    var texts := CheckFields(TEXT_FIELDS, Blank(show, c), AsEmpty);
    var lists := CheckFields(LIST_FIELDS, NotATextList(c), AsBadList);
    var methods := CheckMethods(h, show, c);
    var flags := CheckDoneRule(Get(c, "done_rule"));
    errors := CriticalityErrors(show, c) + texts + lists + methods + flags;
  }

  // ---------------------------------------------------------------------
  // A batch of contracts
  // ---------------------------------------------------------------------

  /** What is found while the contracts are scanned one by one. */
  datatype ScanError =
    | InContract(id: string, error: ContractError)
    | DuplicateOwnerTest(id: string, owner: string, previous: string)
    | DuplicateLiveKey(id: string, key: string, previous: string)

  datatype BatchError = Scanned(error: ScanError) | DuplicateId(id: string)

  /** The contract's own id, or a stand-in made from its one-based position. */
  function IdOf(show: Show, c: Contract, position: nat): (id: string)
    ensures id != ""
  {
    var own := AsText(show, Get(c, "id"));
    if own != "" then own else "<index:" + Decimal(position) + ">"
  }

  ghost function Ids(show: Show, contracts: seq<Contract>): seq<string>
  {
    seq(|contracts|, i requires 0 <= i < |contracts| => IdOf(show, contracts[i], i + 1))
  }

  ghost function Texts(show: Show, contracts: seq<Contract>, field: string): seq<string>
  {
    seq(|contracts|, i requires 0 <= i < |contracts| => AsText(show, Get(contracts[i], field)))
  }

  /** No two of the first `n` contracts share a non-empty text under different ids. */
  ghost predicate NoClash(texts: seq<string>, ids: seq<string>, n: nat)
    requires n <= |texts| == |ids|
  {
    forall j, k :: 0 <= j < k < n && texts[j] == texts[k] != "" ==> ids[j] == ids[k]
  }

  ghost predicate BatchValid(h: Host, show: Show, contracts: seq<Contract>)
  {
    && (forall c <- contracts :: WellFormed(h, show, c))
    && NoDuplicates(Ids(show, contracts))
    && NoDuplicates(Texts(show, contracts, "owner_test"))
    && NoDuplicates(Texts(show, contracts, "live_proof_key"))
  }

  /** `seen` remembers, for each text met so far, the id it was first met under. */
  ghost predicate Remembers(seen: map<string, string>, texts: seq<string>, ids: seq<string>, n: nat)
    requires n <= |texts| == |ids|
  {
    && (forall k :: 0 <= k < n && texts[k] != "" ==> texts[k] in seen)
    && (forall t <- seen :: exists k :: 0 <= k < n && texts[k] == t && ids[k] == seen[t])
    && (NoClash(texts, ids, n) ==> forall k :: 0 <= k < n && texts[k] != "" ==> seen[texts[k]] == ids[k])
  }

  /** Does recording `text` under `id` contradict what was seen? */
  predicate Clashes(seen: map<string, string>, text: string, id: string)
  {
    text != "" && text in seen && seen[text] != id
  }

  function Remember(seen: map<string, string>, text: string, id: string): map<string, string>
  {
    if text == "" || Clashes(seen, text, id) then seen else seen[text := id]
  }

  lemma RememberKeeps(seen: map<string, string>, texts: seq<string>, ids: seq<string>, n: nat)
    requires n < |texts| == |ids| && Remembers(seen, texts, ids, n)
    ensures forall t <- Remember(seen, texts[n], ids[n]) ::
              exists k :: 0 <= k < n + 1 && texts[k] == t && ids[k] == Remember(seen, texts[n], ids[n])[t]
  {
  }

  lemma ClashIsSeen(seen: map<string, string>, texts: seq<string>, ids: seq<string>, n: nat)
    requires n < |texts| == |ids| && Remembers(seen, texts, ids, n)
    ensures NoClash(texts, ids, n + 1) <==> NoClash(texts, ids, n) && !Clashes(seen, texts[n], ids[n])
  {
  }

  lemma RememberStep(seen: map<string, string>, texts: seq<string>, ids: seq<string>, n: nat)
    requires n < |texts| == |ids| && Remembers(seen, texts, ids, n)
    ensures Remembers(Remember(seen, texts[n], ids[n]), texts, ids, n + 1)
  {
    RememberKeeps(seen, texts, ids, n);
    ClashIsSeen(seen, texts, ids, n);
  }

  /** The errors of one contract, labelled with its id. */
  function Labelled(id: string, errors: seq<ContractError>): (r: seq<ScanError>)
    ensures |r| == |errors| && forall k :: 0 <= k < |r| ==> r[k] == InContract(id, errors[k])
  {
    seq(|errors|, k requires 0 <= k < |errors| => InContract(id, errors[k]))
  }

  /** How often `text` occurs. */
  ghost function Count(texts: seq<string>, text: string): nat
  {
    multiset(texts)[text]
  }

  lemma DistinctCounts(texts: seq<string>)
    ensures NoDuplicates(texts) <==> forall t <- texts :: Count(texts, t) <= 1
  {
    if !NoDuplicates(texts) {
      var j, k :| 0 <= j < k < |texts| && texts[j] == texts[k];
      assert texts == texts[..j] + [texts[j]] + texts[j + 1..k] + [texts[k]] + texts[k + 1..];
      assert Count(texts, texts[j]) >= 2;
    } else {
      forall t | t in texts
        ensures Count(texts, t) <= 1
      {
        var k :| 0 <= k < |texts| && texts[k] == t;
        assert texts == texts[..k] + [t] + texts[k + 1..];
        assert t !in texts[..k] && t !in texts[k + 1..];
      }
    }
  }

  /** The ids counted so far, with the order they were first met in. */
  datatype Tally = Tally(order: seq<string>, counts: map<string, nat>)

  function Tick(tally: Tally, id: string): Tally
  {
    if id in tally.counts then tally.(counts := tally.counts[id := tally.counts[id] + 1])
    else Tally(tally.order + [id], tally.counts[id := 1])
  }

  ghost predicate Tallies(tally: Tally, ids: seq<string>)
  {
    && tally.order == Dedup(ids)
    && (forall id :: id in tally.counts <==> id in ids)
    && (forall id <- ids :: tally.counts[id] == Count(ids, id))
  }

  lemma TickTallies(tally: Tally, ids: seq<string>, id: string)
    requires Tallies(tally, ids)
    ensures Tallies(Tick(tally, id), ids + [id])
  {
    DedupSnoc(ids, id);
    DedupMember(ids, id);
    assert multiset(ids + [id]) == multiset(ids) + multiset{id};
    assert id !in ids ==> Count(ids, id) == 0;
  }

  /** The errors a contract's owner test and live key raise against what was seen before. */
  function ClashErrors(owners: map<string, string>, lives: map<string, string>, owner: string, live: string, id: string):
    seq<ScanError>
  {
    (if Clashes(owners, owner, id) then [DuplicateOwnerTest(id, owner, owners[owner])] else [])
    + (if Clashes(lives, live, id) then [DuplicateLiveKey(id, live, lives[live])] else [])
  }

  ghost predicate ExactlyDue(errors: seq<ScanError>, due: seq<ContractError>, id: string, owner: string, live: string,
                             owners: map<string, string>, lives: map<string, string>)
  {
    forall e :: e in errors <==> IsDueFor(due, id, owner, live, owners, lives, e)
  }

  /** What the batch looks at in a contract. */
  datatype View = View(
    id: (Contract, nat) -> string,
    owner: Contract -> string,
    live: Contract -> string,
    sound: Contract -> bool,
    due: Contract -> seq<ContractError>)

  /** `view` is the real one; the triggers keep its definition out of proofs that only need its values. */
  ghost predicate Mirrors(view: View, h: Host, show: Show)
  {
    && (forall c, n {:trigger IdOf(show, c, n)} :: view.id(c, n) == IdOf(show, c, n))
    && (forall c {:trigger AsText(show, Get(c, "owner_test"))} :: view.owner(c) == AsText(show, Get(c, "owner_test")))
    && (forall c {:trigger AsText(show, Get(c, "live_proof_key"))} ::
          view.live(c) == AsText(show, Get(c, "live_proof_key")))
    && (forall c {:trigger WellFormed(h, show, c)} :: view.sound(c) == WellFormed(h, show, c))
    && (forall c {:trigger ErrorsOf(h, show, c)} :: view.due(c) == ErrorsOf(h, show, c))
  }

  lemma LabelledMembers(id: string, errors: seq<ContractError>)
    ensures forall e :: e in Labelled(id, errors) <==> e.InContract? && e.id == id && e.error in errors
  {
  }

  /** The errors due for a contract with the given id and texts, after what was seen before. */
  ghost predicate IsDueFor(due: seq<ContractError>, id: string, owner: string, live: string,
                           owners: map<string, string>, lives: map<string, string>, e: ScanError)
  {
    match e
    case InContract(i, error) => i == id && error in due
    case DuplicateOwnerTest(i, text, previous) =>
      i == id && text == owner && Clashes(owners, owner, id) && previous == owners[owner]
    case DuplicateLiveKey(i, text, previous) =>
      i == id && text == live && Clashes(lives, live, id) && previous == lives[live]
  }

  /** The texts seen among the first `n`, each with the id it was first met under. */
  ghost function SeenAfter(texts: seq<string>, ids: seq<string>, n: nat): map<string, string>
    requires n <= |texts| == |ids|
  {
    if n == 0 then map[] else Remember(SeenAfter(texts, ids, n - 1), texts[n - 1], ids[n - 1])
  }

  ghost function TallyAfter(ids: seq<string>, n: nat): Tally
    requires n <= |ids|
  {
    if n == 0 then Tally([], map[]) else Tick(TallyAfter(ids, n - 1), ids[n - 1])
  }

  lemma TallyCountsAll(ids: seq<string>)
    ensures Tallies(TallyAfter(ids, |ids|), ids)
  {
    TallyCounts(ids, |ids|);
    assert ids[..|ids|] == ids;
  }

  /** Scanning the first `n` contracts raises no error; `sound` says which contracts are fine by themselves. */
  ghost predicate QuietAfter(sound: seq<bool>, ids: seq<string>, owners: seq<string>, lives: seq<string>, n: nat)
    requires n <= |sound| == |ids| == |owners| == |lives|
  {
    n == 0 ||
    (QuietAfter(sound, ids, owners, lives, n - 1) && sound[n - 1]
     && !Clashes(SeenAfter(owners, ids, n - 1), owners[n - 1], ids[n - 1])
     && !Clashes(SeenAfter(lives, ids, n - 1), lives[n - 1], ids[n - 1]))
  }

  lemma {:induction false} SeenIsRemembered(texts: seq<string>, ids: seq<string>, n: nat)
    requires n <= |texts| == |ids|
    ensures Remembers(SeenAfter(texts, ids, n), texts, ids, n)
  {
    if n > 0 {
      var before := SeenAfter(texts, ids, n - 1);
      SeenIsRemembered(texts, ids, n - 1);
      RememberStep(before, texts, ids, n - 1);
      assert SeenAfter(texts, ids, n) == Remember(before, texts[n - 1], ids[n - 1]);
    }
  }

  lemma {:induction false} TallyCounts(ids: seq<string>, n: nat)
    requires n <= |ids|
    ensures Tallies(TallyAfter(ids, n), ids[..n])
  {
    if n > 0 {
      TallyCounts(ids, n - 1);
      TickTallies(TallyAfter(ids, n - 1), ids[..n - 1], ids[n - 1]);
      assert ids[..n] == ids[..n - 1] + [ids[n - 1]];
    }
  }

  /** No first-met id is contradicted exactly when no two texts clash. */
  lemma ClashStep(texts: seq<string>, ids: seq<string>, n: nat)
    requires n < |texts| == |ids|
    ensures NoClash(texts, ids, n + 1) <==>
              NoClash(texts, ids, n) && !Clashes(SeenAfter(texts, ids, n), texts[n], ids[n])
  {
    SeenIsRemembered(texts, ids, n);
    ClashIsSeen(SeenAfter(texts, ids, n), texts, ids, n);
  }

  lemma {:induction false} QuietMeansNoClash(sound: seq<bool>, ids: seq<string>, owners: seq<string>, lives: seq<string>,
                                             n: nat)
    requires n <= |sound| == |ids| == |owners| == |lives|
    ensures QuietAfter(sound, ids, owners, lives, n) <==>
              (forall k :: 0 <= k < n ==> sound[k]) && NoClash(owners, ids, n) && NoClash(lives, ids, n)
  {
    if n > 0 {
      QuietMeansNoClash(sound, ids, owners, lives, n - 1);
      ClashStep(owners, ids, n - 1);
      ClashStep(lives, ids, n - 1);
    }
  }

  /** One contract's own errors, labelled with its id, then its clashes with what was seen before. */
  function OneScan(due: seq<ContractError>, id: string, owner: string, live: string, owners: map<string, string>,
                   lives: map<string, string>): seq<ScanError>
  {
    Labelled(id, due) + ClashErrors(owners, lives, owner, live, id)
  }

  lemma OneScanIsDue(due: seq<ContractError>, id: string, owner: string, live: string, owners: map<string, string>,
                     lives: map<string, string>)
    ensures ExactlyDue(OneScan(due, id, owner, live, owners, lives), due, id, owner, live, owners, lives)
  {
    LabelledMembers(id, due);
  }

  lemma OneScanIsQuiet(due: seq<ContractError>, id: string, owner: string, live: string, owners: map<string, string>,
                       lives: map<string, string>)
    ensures OneScan(due, id, owner, live, owners, lives) == [] <==>
            due == [] && !Clashes(owners, owner, id) && !Clashes(lives, live, id)
  {
  }

  method ScanOne(h: Host, show: Show, c: Contract, position: nat, owners: map<string, string>,
                 lives: map<string, string>, ghost view: View)
    returns (id: string, owner: string, live: string, errors: seq<ScanError>)
    requires Mirrors(view, h, show)
    ensures id == view.id(c, position) && owner == view.owner(c) && live == view.live(c)
    ensures errors == OneScan(view.due(c), id, owner, live, owners, lives)
  {
    id := IdOf(show, c, position);
    owner, live := AsText(show, Get(c, "owner_test")), AsText(show, Get(c, "live_proof_key"));
    var due := RunChecks(h, show, c);
    errors := OneScan(due, id, owner, live, owners, lives);
  }

  ghost function SoundOf(view: View, contracts: seq<Contract>): seq<bool>
  {
    seq(|contracts|, k requires 0 <= k < |contracts| => view.sound(contracts[k]))
  }

  ghost function IdsOf(view: View, contracts: seq<Contract>): seq<string>
  {
    seq(|contracts|, k requires 0 <= k < |contracts| => view.id(contracts[k], k + 1))
  }

  ghost function OwnersOf(view: View, contracts: seq<Contract>): seq<string>
  {
    seq(|contracts|, k requires 0 <= k < |contracts| => view.owner(contracts[k]))
  }

  ghost function LivesOf(view: View, contracts: seq<Contract>): seq<string>
  {
    seq(|contracts|, k requires 0 <= k < |contracts| => view.live(contracts[k]))
  }

  ghost predicate Viewed(view: View, contracts: seq<Contract>, dues: Dues, ids: seq<string>,
                         owners: seq<string>, lives: seq<string>)
  {
    && |contracts| == |dues| == |ids| == |owners| == |lives|
    && forall k :: 0 <= k < |contracts| ==>
         && dues[k] == view.due(contracts[k]) && ids[k] == view.id(contracts[k], k + 1)
         && owners[k] == view.owner(contracts[k]) && lives[k] == view.live(contracts[k])
  }

  /** The error lists of a batch, contract by contract. */
  type Dues = seq<seq<ContractError>>

  /** `e` is due for the contract at position `k`, given the texts seen before it. */
  ghost predicate DueAt(dues: Dues, ids: seq<string>, owners: seq<string>, lives: seq<string>, k: nat, e: ScanError)
    requires k < |dues| == |ids| == |owners| == |lives|
  {
    IsDueFor(dues[k], ids[k], owners[k], lives[k], SeenAfter(owners, ids, k), SeenAfter(lives, ids, k), e)
  }

  /** The text of a contract with id `id` was first met under another id, `previous`. */
  ghost predicate Reused(texts: seq<string>, ids: seq<string>, id: string, text: string, previous: string)
    requires |texts| == |ids|
  {
    && text != "" && previous != id
    && exists j, k :: && 0 <= j < k < |texts| && texts[j] == text && texts[k] == text
                      && ids[j] == previous && ids[k] == id && text !in texts[..j]
  }

  /** What is remembered for a text is the id it was first met under. */
  lemma {:induction false} SeenIsFirst(texts: seq<string>, ids: seq<string>, n: nat, t: string)
    requires n <= |texts| == |ids|
    ensures t in SeenAfter(texts, ids, n) <==> t != "" && t in texts[..n]
    ensures t in SeenAfter(texts, ids, n) ==>
              exists j :: 0 <= j < n && texts[j] == t && ids[j] == SeenAfter(texts, ids, n)[t] && t !in texts[..j]
  {
    if n > 0 {
      SeenIsFirst(texts, ids, n - 1, t);
      assert texts[..n] == texts[..n - 1] + [texts[n - 1]];
    }
  }

  lemma FirstIsUnique(texts: seq<string>, t: string, i: nat, j: nat)
    requires i < |texts| && j < |texts| && texts[i] == t && texts[j] == t
    requires t !in texts[..i] && t !in texts[..j]
    ensures i == j
  {
  }

  lemma ClashMeansReused(texts: seq<string>, ids: seq<string>, id: string, text: string, previous: string)
    requires |texts| == |ids|
    ensures Reused(texts, ids, id, text, previous) <==>
              exists k :: && 0 <= k < |texts| && ids[k] == id && texts[k] == text
                          && Clashes(SeenAfter(texts, ids, k), text, id) && SeenAfter(texts, ids, k)[text] == previous
  {
    if Reused(texts, ids, id, text, previous) {
      var j, k :| && 0 <= j < k < |texts| && texts[j] == text && texts[k] == text
                  && ids[j] == previous && ids[k] == id && text !in texts[..j];
      SeenIsFirst(texts, ids, k, text);
      assert texts[..k][j] == text;
      var first :| 0 <= first < k && texts[first] == text && ids[first] == SeenAfter(texts, ids, k)[text]
                   && text !in texts[..first];
      FirstIsUnique(texts, text, first, j);
    }
    if k :| && 0 <= k < |texts| && ids[k] == id && texts[k] == text
            && Clashes(SeenAfter(texts, ids, k), text, id) && SeenAfter(texts, ids, k)[text] == previous {
      SeenIsFirst(texts, ids, k, text);
    }
  }

  /** Exactly the errors due over the whole batch, duplicate ids aside. */
  ghost predicate IsBatchDue(h: Host, show: Show, contracts: seq<Contract>, e: ScanError)
  {
    var ids := Ids(show, contracts);
    match e
    case InContract(id, error) =>
      exists k :: 0 <= k < |contracts| && ids[k] == id && IsDue(h, show, contracts[k], error)
    case DuplicateOwnerTest(id, text, previous) =>
      Reused(Texts(show, contracts, "owner_test"), ids, id, text, previous)
    case DuplicateLiveKey(id, text, previous) =>
      Reused(Texts(show, contracts, "live_proof_key"), ids, id, text, previous)
  }

  ghost predicate DueInBatch(dues: Dues, ids: seq<string>, owners: seq<string>, lives: seq<string>, e: ScanError)
    requires |dues| == |ids| == |owners| == |lives|
  {
    match e
    case InContract(id, error) => exists k :: 0 <= k < |dues| && ids[k] == id && error in dues[k]
    case DuplicateOwnerTest(id, text, previous) => Reused(owners, ids, id, text, previous)
    case DuplicateLiveKey(id, text, previous) => Reused(lives, ids, id, text, previous)
  }

  /** `errors` are exactly those due for the first `n` contracts. */
  ghost predicate Collected(errors: seq<ScanError>, dues: Dues, ids: seq<string>, owners: seq<string>, lives: seq<string>,
                            n: nat)
    requires n <= |dues| == |ids| == |owners| == |lives|
  {
    forall e :: e in errors <==> exists k :: 0 <= k < n && DueAt(dues, ids, owners, lives, k, e)
  }

  lemma CollectNext(errors: seq<ScanError>, found: seq<ScanError>, dues: Dues, ids: seq<string>, owners: seq<string>,
                    lives: seq<string>, n: nat)
    requires n < |dues| == |ids| == |owners| == |lives|
    requires Collected(errors, dues, ids, owners, lives, n)
    requires ExactlyDue(found, dues[n], ids[n], owners[n], lives[n], SeenAfter(owners, ids, n), SeenAfter(lives, ids, n))
    ensures Collected(errors + found, dues, ids, owners, lives, n + 1)
  {
    assert forall e :: e in found <==> DueAt(dues, ids, owners, lives, n, e);
  }

  /** What a scan of the first `n` contracts reports, in order. */
  ghost function Scan(dues: Dues, ids: seq<string>, owners: seq<string>, lives: seq<string>, n: nat): seq<ScanError>
    requires n <= |dues| == |ids| == |owners| == |lives|
  {
    if n == 0 then []
    else
      Scan(dues, ids, owners, lives, n - 1)
      + OneScan(dues[n - 1], ids[n - 1], owners[n - 1], lives[n - 1], SeenAfter(owners, ids, n - 1),
                SeenAfter(lives, ids, n - 1))
  }

  datatype ScanState = ScanState(errors: seq<ScanError>, owners: map<string, string>, lives: map<string, string>,
                                 tally: Tally)

  ghost function StateAfter(dues: Dues, ids: seq<string>, owners: seq<string>, lives: seq<string>, n: nat): ScanState
    requires n <= |dues| == |ids| == |owners| == |lives|
  {
    ScanState(Scan(dues, ids, owners, lives, n), SeenAfter(owners, ids, n), SeenAfter(lives, ids, n), TallyAfter(ids, n))
  }

  lemma ScanAdvances(dues: Dues, ids: seq<string>, owners: seq<string>, lives: seq<string>, n: nat, st: ScanState,
                     found: seq<ScanError>)
    requires n < |dues| == |ids| == |owners| == |lives| && st == StateAfter(dues, ids, owners, lives, n)
    requires found == OneScan(dues[n], ids[n], owners[n], lives[n], st.owners, st.lives)
    ensures ScanState(st.errors + found, Remember(st.owners, owners[n], ids[n]), Remember(st.lives, lives[n], ids[n]),
                      Tick(st.tally, ids[n])) == StateAfter(dues, ids, owners, lives, n + 1)
  {
  }

  lemma {:induction false} ScanIsDue(dues: Dues, ids: seq<string>, owners: seq<string>, lives: seq<string>, n: nat)
    requires n <= |dues| == |ids| == |owners| == |lives|
    ensures Collected(Scan(dues, ids, owners, lives, n), dues, ids, owners, lives, n)
  {
    if n > 0 {
      var k := n - 1;
      var seenOwners, seenLives := SeenAfter(owners, ids, k), SeenAfter(lives, ids, k);
      ScanIsDue(dues, ids, owners, lives, k);
      OneScanIsDue(dues[k], ids[k], owners[k], lives[k], seenOwners, seenLives);
      CollectNext(Scan(dues, ids, owners, lives, k), OneScan(dues[k], ids[k], owners[k], lives[k], seenOwners, seenLives),
                  dues, ids, owners, lives, k);
    }
  }

  lemma {:induction false} ScanIsQuiet(sound: seq<bool>, dues: Dues, ids: seq<string>, owners: seq<string>,
                                       lives: seq<string>, n: nat)
    requires n <= |sound| == |dues| == |ids| == |owners| == |lives|
    requires forall k :: 0 <= k < n ==> (sound[k] <==> dues[k] == [])
    ensures Scan(dues, ids, owners, lives, n) == [] <==> QuietAfter(sound, ids, owners, lives, n)
  {
    if n > 0 {
      var k := n - 1;
      ScanIsQuiet(sound, dues, ids, owners, lives, k);
      OneScanIsQuiet(dues[k], ids[k], owners[k], lives[k], SeenAfter(owners, ids, k), SeenAfter(lives, ids, k));
    }
  }

  lemma DueSomewhere(dues: Dues, ids: seq<string>, owners: seq<string>, lives: seq<string>, e: ScanError)
    requires |dues| == |ids| == |owners| == |lives|
    ensures DueInBatch(dues, ids, owners, lives, e) <==>
              exists k :: 0 <= k < |dues| && DueAt(dues, ids, owners, lives, k, e)
  {
    match e
    case InContract(id, error) =>
      assert forall k :: 0 <= k < |dues| ==> (DueAt(dues, ids, owners, lives, k, e) <==> ids[k] == id && error in dues[k]);
    case DuplicateOwnerTest(id, text, previous) =>
      ClashMeansReused(owners, ids, id, text, previous);
      assert forall k :: 0 <= k < |dues| ==>
                           (DueAt(dues, ids, owners, lives, k, e) <==>
                            ids[k] == id && owners[k] == text && Clashes(SeenAfter(owners, ids, k), text, id)
                            && SeenAfter(owners, ids, k)[text] == previous);
    case DuplicateLiveKey(id, text, previous) =>
      ClashMeansReused(lives, ids, id, text, previous);
      assert forall k :: 0 <= k < |dues| ==>
                           (DueAt(dues, ids, owners, lives, k, e) <==>
                            ids[k] == id && lives[k] == text && Clashes(SeenAfter(lives, ids, k), text, id)
                            && SeenAfter(lives, ids, k)[text] == previous);
  }

  ghost function DuesOf(view: View, contracts: seq<Contract>): Dues
  {
    seq(|contracts|, k requires 0 <= k < |contracts| => view.due(contracts[k]))
  }

  lemma RealDues(h: Host, show: Show, contracts: seq<Contract>, view: View, owners: seq<string>, lives: seq<string>,
                 e: ScanError)
    requires Mirrors(view, h, show) && |contracts| == |owners| == |lives|
    requires owners == Texts(show, contracts, "owner_test") && lives == Texts(show, contracts, "live_proof_key")
    ensures IsBatchDue(h, show, contracts, e) <==>
              DueInBatch(DuesOf(view, contracts), Ids(show, contracts), owners, lives, e)
  {
    if e.InContract? {
      forall k | 0 <= k < |contracts|
        ensures e.error in DuesOf(view, contracts)[k] <==> IsDue(h, show, contracts[k], e.error)
      {
        ErrorsAreDue(h, show, contracts[k], e.error);
      }
    }
  }

  lemma SoundMeansNoErrors(h: Host, show: Show, contracts: seq<Contract>, view: View)
    requires Mirrors(view, h, show)
    ensures forall k :: 0 <= k < |contracts| ==> (SoundOf(view, contracts)[k] <==> DuesOf(view, contracts)[k] == [])
  {
    forall k | 0 <= k < |contracts|
      ensures SoundOf(view, contracts)[k] <==> DuesOf(view, contracts)[k] == []
    {
      NoErrorsIsWellFormed(h, show, contracts[k]);
    }
  }

  /** The contract at position `k`, in terms of the lists. */
  method ScanAt(h: Host, show: Show, contracts: seq<Contract>, k: nat, seenOwners: map<string, string>,
                seenLives: map<string, string>, ghost view: View, ghost dues: Dues, ghost ids: seq<string>,
                ghost owners: seq<string>, ghost lives: seq<string>)
    returns (id: string, owner: string, live: string, errors: seq<ScanError>)
    requires k < |contracts| && Mirrors(view, h, show) && Viewed(view, contracts, dues, ids, owners, lives)
    ensures id == ids[k] && owner == owners[k] && live == lives[k]
    ensures errors == OneScan(dues[k], ids[k], owners[k], lives[k], seenOwners, seenLives)
  {
    id, owner, live, errors := ScanOne(h, show, contracts[k], k + 1, seenOwners, seenLives, view);
  }

  /** Everything but the duplicate ids, which are left to the tally. */
  method ScanContracts(h: Host, show: Show, contracts: seq<Contract>, ghost view: View, ghost dues: Dues,
                       ghost ids: seq<string>, ghost owners: seq<string>, ghost lives: seq<string>)
    returns (errors: seq<ScanError>, tally: Tally)
    requires Mirrors(view, h, show) && Viewed(view, contracts, dues, ids, owners, lives)
    ensures errors == Scan(dues, ids, owners, lives, |contracts|)
    ensures tally == TallyAfter(ids, |contracts|)
  {
    tally := Tally([], map[]);
    var seenOwners: map<string, string> := map[];
    var seenLives: map<string, string> := map[];
    errors := [];
    for i := 0 to |contracts|
      invariant ScanState(errors, seenOwners, seenLives, tally) == StateAfter(dues, ids, owners, lives, i)
    {
      var id, owner, live, found := ScanAt(h, show, contracts, i, seenOwners, seenLives, view, dues, ids, owners,
                                              lives);
      ScanAdvances(dues, ids, owners, lives, i, ScanState(errors, seenOwners, seenLives, tally), found);
      errors := errors + found;
      seenOwners, seenLives := Remember(seenOwners, owner, id), Remember(seenLives, live, id);
      tally := Tick(tally, id);
    }
  }

  lemma RealView(h: Host, show: Show, contracts: seq<Contract>) returns (view: View)
    ensures Mirrors(view, h, show)
    ensures IdsOf(view, contracts) == Ids(show, contracts)
    ensures OwnersOf(view, contracts) == Texts(show, contracts, "owner_test")
    ensures LivesOf(view, contracts) == Texts(show, contracts, "live_proof_key")
    ensures DuesOf(view, contracts) == ErrorLists(h, show, contracts)
  {
    view := View(
      (c, n: nat) => IdOf(show, c, n),
      c => AsText(show, Get(c, "owner_test")),
      c => AsText(show, Get(c, "live_proof_key")),
      c => WellFormed(h, show, c),
      c => ErrorsOf(h, show, c));
  }

  ghost function ErrorLists(h: Host, show: Show, contracts: seq<Contract>): Dues
  {
    seq(|contracts|, k requires 0 <= k < |contracts| => ErrorsOf(h, show, contracts[k]))
  }

  /** An error for each of `order` that occurs more than once among `ids`. */
  ghost function Repeats(order: seq<string>, ids: seq<string>): seq<BatchError>
  {
    if order == [] then []
    else
      var front, last := Repeats(order[..|order| - 1], ids), order[|order| - 1];
      if Count(ids, last) > 1 then front + [DuplicateId(last)] else front
  }

  /** The scan of every contract in turn, then the repeated ids in the order they were first met. */
  ghost function BatchErrors(h: Host, show: Show, contracts: seq<Contract>): seq<BatchError>
  {
    var ids := Ids(show, contracts);
    var owners, lives := Texts(show, contracts, "owner_test"), Texts(show, contracts, "live_proof_key");
    ScannedErrors(Scan(ErrorLists(h, show, contracts), ids, owners, lives, |contracts|)) + Repeats(Dedup(ids), ids)
  }

  function ScannedErrors(errors: seq<ScanError>): (r: seq<BatchError>)
    ensures |r| == |errors| && forall k :: 0 <= k < |r| ==> r[k] == Scanned(errors[k])
  {
    seq(|errors|, k requires 0 <= k < |errors| => Scanned(errors[k]))
  }

  /** The whole batch: exactly these errors in exactly this order, and what that says. */
  method ValidateContracts(h: Host, show: Show, contracts: seq<Contract>) returns (ok: bool, errors: seq<BatchError>)
    ensures errors == BatchErrors(h, show, contracts)
    ensures ok <==> errors == []
    ensures ok <==> BatchValid(h, show, contracts)
    ensures forall id :: DuplicateId(id) in errors <==> Count(Ids(show, contracts), id) > 1
    ensures forall e :: Scanned(e) in errors <==> IsBatchDue(h, show, contracts, e)
  {
    errors := CollectErrors(h, show, contracts);
    ok := errors == [];
    BatchMeaning(h, show, contracts);
  }

  method CollectErrors(h: Host, show: Show, contracts: seq<Contract>) returns (errors: seq<BatchError>)
    ensures errors == BatchErrors(h, show, contracts)
  {
    ghost var view := RealView(h, show, contracts);
    ghost var ids, owners, lives := IdsOf(view, contracts), OwnersOf(view, contracts), LivesOf(view, contracts);
    var scanned, tally := ScanContracts(h, show, contracts, view, DuesOf(view, contracts), ids, owners, lives);
    TallyCountsAll(ids);
    var duplicates := RepeatedIds(tally, ids);
    errors := ScannedErrors(scanned) + duplicates;
  }

  /** What the error list of a batch says. */
  lemma BatchMeaning(h: Host, show: Show, contracts: seq<Contract>)
    ensures BatchErrors(h, show, contracts) == [] <==> BatchValid(h, show, contracts)
    ensures forall id :: DuplicateId(id) in BatchErrors(h, show, contracts) <==> Count(Ids(show, contracts), id) > 1
    ensures forall e :: Scanned(e) in BatchErrors(h, show, contracts) <==> IsBatchDue(h, show, contracts, e)
  {
    var view := RealView(h, show, contracts);
    var scanned := Scan(DuesOf(view, contracts), IdsOf(view, contracts), OwnersOf(view, contracts),
                        LivesOf(view, contracts), |contracts|);
    var repeats := Repeats(Dedup(Ids(show, contracts)), Ids(show, contracts));
    assert BatchErrors(h, show, contracts) == ScannedErrors(scanned) + repeats;
    RepeatsMeaning(Ids(show, contracts));
    QuietScanIsValid(h, show, contracts, view, scanned);
    forall e
      ensures e in scanned <==> IsBatchDue(h, show, contracts, e)
    {
      ScannedIsDue(h, show, contracts, view, scanned, e);
    }
    BatchMembers(scanned, repeats);
  }

  /** The final loop over the counted ids. */
  method RepeatedIds(tally: Tally, ghost ids: seq<string>) returns (duplicates: seq<BatchError>)
    requires Tallies(tally, ids)
    ensures duplicates == Repeats(Dedup(ids), ids)
  {
    var order := tally.order;
    duplicates := [];
    for i := 0 to |order|
      invariant duplicates == Repeats(order[..i], ids)
    {
      assert order[..i + 1][..i] == order[..i];
      DedupMember(ids, order[i]);
      if tally.counts[order[i]] > 1 {
        duplicates := duplicates + [DuplicateId(order[i])];
      }
    }
    assert order[..|order|] == order;
  }

  lemma {:induction false} RepeatsMembers(order: seq<string>, ids: seq<string>)
    ensures forall e :: e in Repeats(order, ids) <==> e.DuplicateId? && e.id in order && Count(ids, e.id) > 1
  {
    if order != [] {
      var front, last := order[..|order| - 1], order[|order| - 1];
      RepeatsMembers(front, ids);
      assert order == front + [last];
    }
  }

  lemma RepeatsMeaning(ids: seq<string>)
    ensures forall e :: e in Repeats(Dedup(ids), ids) <==> e.DuplicateId? && Count(ids, e.id) > 1
    ensures Repeats(Dedup(ids), ids) == [] <==> NoDuplicates(ids)
  {
    var repeats := Repeats(Dedup(ids), ids);
    RepeatsMembers(Dedup(ids), ids);
    DedupKeepsMembers(ids);
    DistinctCounts(ids);
    forall id | Count(ids, id) > 1
      ensures DuplicateId(id) in repeats
    {
      assert id in ids;
    }
    assert repeats == [] || repeats[0] in repeats;
  }

  /** `scanned` is what the scan of the batch reports. */
  ghost predicate IsScan(h: Host, show: Show, contracts: seq<Contract>, view: View, scanned: seq<ScanError>)
  {
    && Mirrors(view, h, show)
    && IdsOf(view, contracts) == Ids(show, contracts)
    && OwnersOf(view, contracts) == Texts(show, contracts, "owner_test")
    && LivesOf(view, contracts) == Texts(show, contracts, "live_proof_key")
    && scanned == Scan(DuesOf(view, contracts), IdsOf(view, contracts), OwnersOf(view, contracts),
                       LivesOf(view, contracts), |contracts|)
  }

  lemma QuietScanIsValid(h: Host, show: Show, contracts: seq<Contract>, view: View, scanned: seq<ScanError>)
    requires IsScan(h, show, contracts, view, scanned)
    ensures scanned == [] && NoDuplicates(Ids(show, contracts)) <==> BatchValid(h, show, contracts)
  {
    BatchValidByIds(h, show, contracts, view);
    SoundMeansNoErrors(h, show, contracts, view);
    ScanIsQuiet(SoundOf(view, contracts), DuesOf(view, contracts), IdsOf(view, contracts), OwnersOf(view, contracts),
                LivesOf(view, contracts), |contracts|);
  }

  lemma ScannedIsDue(h: Host, show: Show, contracts: seq<Contract>, view: View, scanned: seq<ScanError>, e: ScanError)
    requires IsScan(h, show, contracts, view, scanned)
    ensures e in scanned <==> IsBatchDue(h, show, contracts, e)
  {
    var ids, owners, lives := IdsOf(view, contracts), OwnersOf(view, contracts), LivesOf(view, contracts);
    var dues := DuesOf(view, contracts);
    ScanIsDue(dues, ids, owners, lives, |contracts|);
    DueSomewhere(dues, ids, owners, lives, e);
    RealDues(h, show, contracts, view, owners, lives, e);
  }

  lemma BatchMembers(scanned: seq<ScanError>, duplicates: seq<BatchError>)
    requires forall e <- duplicates :: e.DuplicateId?
    ensures forall e :: Scanned(e) in ScannedErrors(scanned) + duplicates <==> e in scanned
    ensures forall id :: DuplicateId(id) in ScannedErrors(scanned) + duplicates <==> DuplicateId(id) in duplicates
    ensures ScannedErrors(scanned) + duplicates == [] <==> scanned == [] && duplicates == []
  {
    var all := ScannedErrors(scanned);
    forall e | e in scanned
      ensures Scanned(e) in all
    {
      var k :| 0 <= k < |scanned| && scanned[k] == e;
      assert all[k] == Scanned(e);
    }
  }

  lemma NoClashIsDistinct(texts: seq<string>, ids: seq<string>)
    requires |texts| == |ids| && NoDuplicates(ids) && forall k :: 0 <= k < |texts| ==> texts[k] != ""
    ensures NoClash(texts, ids, |texts|) <==> NoDuplicates(texts)
  {
  }

  lemma WellFormedTexts(h: Host, show: Show, c: Contract)
    requires WellFormed(h, show, c)
    ensures AsText(show, Get(c, "owner_test")) != "" && AsText(show, Get(c, "live_proof_key")) != ""
    ensures AsText(show, Get(c, "id")) != ""
  {
    assert TEXT_FIELDS[0] == "id" && TEXT_FIELDS[2] == "owner_test" && TEXT_FIELDS[3] == "live_proof_key";
  }

  lemma SoundTexts(h: Host, show: Show, contracts: seq<Contract>, view: View)
    requires Mirrors(view, h, show)
    ensures forall k :: 0 <= k < |contracts| && SoundOf(view, contracts)[k] ==>
                        OwnersOf(view, contracts)[k] != "" && LivesOf(view, contracts)[k] != ""
  {
    forall k | 0 <= k < |contracts| && SoundOf(view, contracts)[k]
      ensures OwnersOf(view, contracts)[k] != "" && LivesOf(view, contracts)[k] != ""
    {
      assert WellFormed(h, show, contracts[k]);
      WellFormedTexts(h, show, contracts[k]);
    }
  }

  lemma AllSound(contracts: seq<Contract>, view: View)
    ensures (forall c <- contracts :: view.sound(c)) <==> forall k :: 0 <= k < |contracts| ==> SoundOf(view, contracts)[k]
  {
    assert forall k :: 0 <= k < |contracts| ==> SoundOf(view, contracts)[k] == view.sound(contracts[k]);
  }

  /** Validity as the view sees it. */
  lemma ValidView(h: Host, show: Show, contracts: seq<Contract>, view: View)
    requires Mirrors(view, h, show)
    requires IdsOf(view, contracts) == Ids(show, contracts)
    requires OwnersOf(view, contracts) == Texts(show, contracts, "owner_test")
    requires LivesOf(view, contracts) == Texts(show, contracts, "live_proof_key")
    ensures BatchValid(h, show, contracts) <==> AllSoundAndDistinct(contracts, view)
  {
    assert forall c {:trigger view.sound(c)} :: view.sound(c) == WellFormed(h, show, c);
  }

  ghost predicate AllSoundAndDistinct(contracts: seq<Contract>, view: View)
  {
    && (forall c <- contracts :: view.sound(c)) && NoDuplicates(IdsOf(view, contracts))
    && NoDuplicates(OwnersOf(view, contracts)) && NoDuplicates(LivesOf(view, contracts))
  }

  ghost predicate QuietAndDistinct(contracts: seq<Contract>, view: View)
  {
    && QuietAfter(SoundOf(view, contracts), IdsOf(view, contracts), OwnersOf(view, contracts),
                  LivesOf(view, contracts), |contracts|)
    && NoDuplicates(IdsOf(view, contracts))
  }

  lemma QuietIsDistinct(sound: seq<bool>, ids: seq<string>, owners: seq<string>, lives: seq<string>)
    requires |sound| == |ids| == |owners| == |lives|
    requires (forall k :: 0 <= k < |sound| ==> sound[k]) ==>
               forall k :: 0 <= k < |sound| ==> owners[k] != "" && lives[k] != ""
    ensures QuietAfter(sound, ids, owners, lives, |sound|) && NoDuplicates(ids) <==>
            (forall k :: 0 <= k < |sound| ==> sound[k])
            && NoDuplicates(ids) && NoDuplicates(owners) && NoDuplicates(lives)
  {
    QuietMeansNoClash(sound, ids, owners, lives, |sound|);
    if (forall k :: 0 <= k < |sound| ==> sound[k]) && NoDuplicates(ids) {
      NoClashIsDistinct(owners, ids);
      NoClashIsDistinct(lives, ids);
    }
  }

  lemma QuietView(contracts: seq<Contract>, view: View)
    requires forall k :: 0 <= k < |contracts| && SoundOf(view, contracts)[k] ==>
                         OwnersOf(view, contracts)[k] != "" && LivesOf(view, contracts)[k] != ""
    ensures AllSoundAndDistinct(contracts, view) <==> QuietAndDistinct(contracts, view)
  {
    AllSound(contracts, view);
    QuietIsDistinct(SoundOf(view, contracts), IdsOf(view, contracts), OwnersOf(view, contracts), LivesOf(view, contracts));
  }

  lemma SoundViewIsQuiet(h: Host, show: Show, contracts: seq<Contract>, view: View)
    requires Mirrors(view, h, show)
    ensures AllSoundAndDistinct(contracts, view) <==> QuietAndDistinct(contracts, view)
  {
    SoundTexts(h, show, contracts, view);
    QuietView(contracts, view);
  }

  /** With distinct ids and non-empty texts, no clash means distinct texts. */
  lemma BatchValidByIds(h: Host, show: Show, contracts: seq<Contract>, view: View)
    requires Mirrors(view, h, show)
    requires IdsOf(view, contracts) == Ids(show, contracts)
    requires OwnersOf(view, contracts) == Texts(show, contracts, "owner_test")
    requires LivesOf(view, contracts) == Texts(show, contracts, "live_proof_key")
    ensures BatchValid(h, show, contracts) <==> QuietAndDistinct(contracts, view)
  {
    ValidView(h, show, contracts, view);
    SoundViewIsQuiet(h, show, contracts, view);
  }
}
