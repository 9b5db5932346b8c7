/** The validator's rules one by one, read off the contract's own fields. */
module ContractRules {
  import opened PyText
  import opened Casing
  import opened ContractValidator

  /** Every required field is there, by name. */
  ghost predicate Complete(c: Contract)
  {
    && "id" in c && "title" in c && "criticality" in c && "owner_test" in c && "live_proof_key" in c
    && "required_behavior" in c && "forbidden_behavior" in c && "user_visible_expectation" in c
    && "state_expectation" in c && "code_hotspots" in c && "verification_methods" in c && "acceptance_tests" in c
    && "done_rule" in c
  }

  lemma CompleteIsPresent(c: Contract)
    ensures Complete(c) <==> Present(c, REQUIRED_FIELDS)
  {
    var f := REQUIRED_FIELDS;
    assert f[0] == "id" && f[1] == "title" && f[2] == "criticality" && f[3] == "owner_test" && f[4] == "live_proof_key";
    assert f[5] == "required_behavior" && f[6] == "forbidden_behavior" && f[7] == "user_visible_expectation";
    assert f[8] == "state_expectation" && f[9] == "code_hotspots" && f[10] == "verification_methods";
    assert f[11] == "acceptance_tests" && f[12] == "done_rule";
  }

  /** A list of texts, none of them blank. */
  ghost predicate TextItemsOnly(v: Value)
  {
    v.Items? && v.items != [] && forall k :: 0 <= k < |v.items| ==> v.items[k].Text? && !AllSpace(v.items[k].s)
  }

  lemma TextListMeans(v: Value)
    ensures IsTextList(v) <==> TextItemsOnly(v)
  {
    if v.Items? {
      forall k | 0 <= k < |v.items|
        ensures IsTextItem(v.items[k]) <==> v.items[k].Text? && !AllSpace(v.items[k].s)
      {
        if v.items[k].Text? {
          BlankMeans(v.items[k].s);
        }
      }
    }
  }

  /** Some item of the list is `name` with nothing but whitespace around it. */
  ghost predicate Lists(v: Value, name: string)
    requires v.Items?
  {
    exists k :: 0 <= k < |v.items| && v.items[k].Text? && Strip(v.items[k].s) == name
  }

  /** A field as text: a text stripped, nothing for what counts as false. */
  lemma TextMeans(show: Show, s: string)
    ensures AsText(show, Text(s)) == Strip(s)
    ensures AsText(show, Nothing) == "" && AsText(show, Items([])) == "" && AsText(show, Flag(false)) == ""
    ensures AsText(show, Flag(true)) == "True"
  {
    BlankMeans("");
  }

  // ---------------------------------------------------------------------
  // Methods
  // ---------------------------------------------------------------------

  lemma ListedMethod(v: Value, name: string)
    requires v.Items?
    ensures name in StripItems(v.items) <==> Lists(v, name)
  {
  }

  /** Release blocking without live flow verification, and nothing else, raises the live flow error. */
  lemma LiveFlowRule(h: Host, show: Show, c: Contract)
    requires Complete(c) && TextItemsOnly(c["verification_methods"])
    ensures ReleaseNeedsLiveFlow in ErrorsOf(h, show, c) <==>
            && AsText(show, c["criticality"]) == "release_blocking"
            && !Lists(c["verification_methods"], "live_flow_verification")
  {
    DueForMethods(h, show, c, ReleaseNeedsLiveFlow);
    ListedMethod(c["verification_methods"], "live_flow_verification");
  }

  /** Decision text in the forbidden behaviour or presentation text in the title. */
  ghost predicate AboutDecisions(h: Host, show: Show, c: Contract)
    requires Complete(c)
  {
    var forbidden := c["forbidden_behavior"];
    || (forbidden.Items?
        && exists k :: 0 <= k < |forbidden.items| && Occurs(Lower(h, Str(show, forbidden.items[k])), "decision"))
    || Occurs(Lower(h, AsText(show, c["title"])), "presentation")
  }

  lemma NeedsMeans(h: Host, show: Show, c: Contract)
    requires Complete(c)
    ensures NeedsReceipts(h, show, c) <==> AboutDecisions(h, show, c)
  {
    var forbidden := c["forbidden_behavior"];
    ContainsIsOccurs(Lower(h, AsText(show, c["title"])), "presentation");
    if forbidden.Items? {
      forall k | 0 <= k < |forbidden.items|
        ensures Contains(Lower(h, Str(show, forbidden.items[k])), "decision") <==>
                Occurs(Lower(h, Str(show, forbidden.items[k])), "decision")
      {
        ContainsIsOccurs(Lower(h, Str(show, forbidden.items[k])), "decision");
      }
    }
  }

  /** Decision or presentation text without receipts verification, and nothing else, raises the receipts error. */
  lemma ReceiptsRule(h: Host, show: Show, c: Contract)
    requires Complete(c) && TextItemsOnly(c["verification_methods"])
    ensures DecisionNeedsReceipts in ErrorsOf(h, show, c) <==>
            AboutDecisions(h, show, c) && !Lists(c["verification_methods"], "receipts_verification")
  {
    DueForMethods(h, show, c, DecisionNeedsReceipts);
    NeedsMeans(h, show, c);
    ListedMethod(c["verification_methods"], "receipts_verification");
  }

  ghost predicate KnownMethod(name: string)
  {
    || name == "static_verification" || name == "behavioral_verification" || name == "user_surface_verification"
    || name == "live_flow_verification" || name == "receipts_verification"
  }

  /** A method outside the five raises the error for methods. */
  lemma MethodsRule(h: Host, show: Show, c: Contract)
    requires Complete(c) && TextItemsOnly(c["verification_methods"])
    ensures InvalidMethods in ErrorsOf(h, show, c) <==>
            exists name :: Lists(c["verification_methods"], name) && !KnownMethod(name)
  {
    var value := c["verification_methods"];
    DueForMethods(h, show, c, InvalidMethods);
    forall name
      ensures name in StripItems(value.items) <==> Lists(value, name)
      ensures name in METHODS <==> KnownMethod(name)
    {
      ListedMethod(value, name);
    }
  }

  /** For a complete contract with a list of methods, the method errors are due by the method checks alone. */
  lemma DueForMethods(h: Host, show: Show, c: Contract, e: ContractError)
    requires Complete(c) && TextItemsOnly(c["verification_methods"])
    requires e == ReleaseNeedsLiveFlow || e == DecisionNeedsReceipts || e == InvalidMethods
    ensures e in ErrorsOf(h, show, c) <==>
            var methods := StripItems(c["verification_methods"].items);
            IsMethodError(!(methods <= METHODS), MissesLiveFlow(show, c, methods), MissesReceipts(h, show, c, methods), e)
  {
    CompleteIsPresent(c);
    TextListMeans(c["verification_methods"]);
    OnlyMethods(h, show, c, e);
    ErrorsAreDue(h, show, c, e);
  }

  lemma OnlyMethods(h: Host, show: Show, c: Contract, e: ContractError)
    requires Present(c, REQUIRED_FIELDS)
    requires e == ReleaseNeedsLiveFlow || e == DecisionNeedsReceipts || e == InvalidMethods
    ensures IsDue(h, show, c, e) == IsBadMethods(h, show, c, e)
  {
  }

  // ---------------------------------------------------------------------
  // Fields
  // ---------------------------------------------------------------------

  /** Missing fields are reported by name, and hide everything else. */
  lemma MissingRule(h: Host, show: Show, c: Contract, e: ContractError)
    requires !Complete(c)
    ensures e in ErrorsOf(h, show, c) <==> e.MissingField? && e.field in REQUIRED_FIELDS && e.field !in c
  {
    CompleteIsPresent(c);
    ErrorsAreDue(h, show, c, e);
  }

  lemma CriticalityRule(h: Host, show: Show, c: Contract)
    requires Complete(c)
    ensures InvalidCriticality in ErrorsOf(h, show, c) <==>
            AsText(show, c["criticality"]) != "release_blocking" && AsText(show, c["criticality"]) != "important"
            && AsText(show, c["criticality"]) != "normal"
  {
    CompleteIsPresent(c);
    ErrorsAreDue(h, show, c, InvalidCriticality);
    OnlyCriticality(h, show, c);
  }

  lemma OnlyCriticality(h: Host, show: Show, c: Contract)
    requires Present(c, REQUIRED_FIELDS)
    ensures IsDue(h, show, c, InvalidCriticality) <==> AsText(show, Get(c, "criticality")) !in CRITICALITIES
  {
  }

  lemma TextRule(h: Host, show: Show, c: Contract, field: string)
    requires Complete(c) && field in c
    ensures EmptyTextField(field) in ErrorsOf(h, show, c) <==>
            && (field == "id" || field == "title" || field == "owner_test" || field == "live_proof_key")
            && AsText(show, c[field]) == ""
  {
    var f := TEXT_FIELDS;
    assert f[0] == "id" && f[1] == "title" && f[2] == "owner_test" && f[3] == "live_proof_key";
    CompleteIsPresent(c);
    ErrorsAreDue(h, show, c, EmptyTextField(field));
  }

  lemma ListRule(h: Host, show: Show, c: Contract, field: string)
    requires Complete(c) && field in c
    ensures InvalidStringList(field) in ErrorsOf(h, show, c) <==>
            && (field == "required_behavior" || field == "forbidden_behavior" || field == "user_visible_expectation"
                || field == "state_expectation" || field == "code_hotspots" || field == "acceptance_tests"
                || field == "verification_methods")
            && !TextItemsOnly(c[field])
  {
    var f := LIST_FIELDS;
    assert f[0] == "required_behavior" && f[1] == "forbidden_behavior" && f[2] == "user_visible_expectation";
    assert f[3] == "state_expectation" && f[4] == "code_hotspots" && f[5] == "acceptance_tests";
    assert "verification_methods" !in f by {
      assert |f| == 6;
    }
    CompleteIsPresent(c);
    TextListMeans(c[field]);
    ErrorsAreDue(h, show, c, InvalidStringList(field));
  }

  lemma DoneFlagsRule(h: Host, show: Show, c: Contract, key: string)
    requires Complete(c)
    ensures InvalidDoneRule in ErrorsOf(h, show, c) <==> !c["done_rule"].Dict?
    ensures InvalidDoneFlag(key) in ErrorsOf(h, show, c) <==>
            && c["done_rule"].Dict?
            && (key == "require_all_verifications_pass" || key == "fail_closed_on_missing_evidence"
                || key == "fail_on_forbidden_observation")
            && !(key in c["done_rule"].fields && c["done_rule"].fields[key].Flag?)
  {
    var f := DONE_FLAGS;
    assert f[0] == "require_all_verifications_pass" && f[1] == "fail_closed_on_missing_evidence";
    assert f[2] == "fail_on_forbidden_observation";
    CompleteIsPresent(c);
    ErrorsAreDue(h, show, c, InvalidDoneRule);
    ErrorsAreDue(h, show, c, InvalidDoneFlag(key));
  }
}
