/** Every contract the plan compiler emits passes the independent validator. */
module CompiledContracts {
  import opened PyText
  import opened Casing
  import opened Decimals
  import opened Slugs
  import opened Distinct
  import opened ContractValidator
  import opened PlanCompiler

  // ---------------------------------------------------------------------
  // Visible texts
  // ---------------------------------------------------------------------

  lemma VisibleHead(s: string)
    requires s != "" && !IsSpace(s[0])
    ensures Strip(s) != ""
  {
    StripKeepsHead(s, 0);
  }

  lemma OneText(s: string)
    requires s != "" && !IsSpace(s[0])
    ensures IsTextList(TextItems([s]))
  {
    VisibleHead(s);
    assert TextItems([s]).items == [Text(s)];
  }

  lemma UpperHead(h: Host, s: string)
    requires s != "" && s[0] == 'R'
    ensures Upper(h, s) != "" && Upper(h, s)[0] == 'R'
  {
    assert UpperChar(h, 'R') == "R";
  }

  lemma TextOf(show: Show, s: string)
    ensures AsText(show, Text(s)) == Strip(s)
    ensures s != "" && !IsSpace(s[0]) ==> AsText(show, Text(s)) != ""
    ensures Trimmed(s) ==> AsText(show, Text(s)) == s
  {
  }

  // ---------------------------------------------------------------------
  // Verification methods
  // ---------------------------------------------------------------------

  lemma MethodNamesAreTrimmed()
    ensures forall m <- METHODS :: m != "" && Trimmed(m)
  {
  }

  lemma MethodItems(methods: seq<string>)
    requires methods != [] && forall m <- methods :: m in METHODS
    ensures IsTextList(TextItems(methods))
    ensures StripItems(TextItems(methods).items) == set m | m in methods
  {
    MethodNamesAreTrimmed();
    var items := TextItems(methods).items;
    forall k | 0 <= k < |methods|
      ensures items[k] == Text(methods[k]) && Strip(methods[k]) == methods[k] != ""
    {
      StripTrims(methods[k]);
    }
    forall m | m in methods
      ensures m in StripItems(items)
    {
      var k :| 0 <= k < |methods| && methods[k] == m;
      assert items[k].Text? && Strip(items[k].s) == m;
    }
  }

  lemma InferredMethodsAreAllowed(h: Host, title: string, required: string, forbidden: string, kind: Kind)
    ensures InferMethods(h, title, required, forbidden, kind) != []
    ensures forall m <- InferMethods(h, title, required, forbidden, kind) :: m in METHODS
  {
  }

  lemma ReceiptWordInferred(h: Host, title: string, required: string, forbidden: string, kind: Kind, word: string)
    requires word in RECEIPT_WORDS
    requires Contains(Lower(h, title + " " + required + " " + forbidden), word)
    ensures RECEIPTS in InferMethods(h, title, required, forbidden, kind)
  {
  }

  /** Decision text in the forbidden behaviour, or presentation text in the title, brings in the receipts check. */
  lemma ReceiptsFollow(h: Host, title: string, required: string, forbidden: string, kind: Kind)
    requires Contains(Lower(h, forbidden), "decision") || Contains(Lower(h, title), "presentation")
    ensures RECEIPTS in InferMethods(h, title, required, forbidden, kind)
  {
    var text := title + " " + required + " " + forbidden;
    if Contains(Lower(h, forbidden), "decision") {
      var front := title + " " + required + " ";
      LowerContains(h, front, forbidden, "", "decision");
      assert front + forbidden + "" == text;
      ReceiptWordInferred(h, title, required, forbidden, kind, RECEIPT_WORDS[2]);
    } else {
      var back := " " + required + " " + forbidden;
      LowerContains(h, "", title, back, "presentation");
      assert "" + title + back == text;
      ReceiptWordInferred(h, title, required, forbidden, kind, RECEIPT_WORDS[1]);
    }
  }

  // ---------------------------------------------------------------------
  // One contract
  // ---------------------------------------------------------------------

  /** The fields of an emitted contract, as the validator looks them up. */
  ghost predicate EmitsTexts(c: Contract, id: string, title: string, owner: string, live: string)
  {
    && Get(c, "id") == Text(id) && Get(c, "title") == Text(title) && Get(c, "criticality") == Text("important")
    && Get(c, "owner_test") == Text(owner) && Get(c, "live_proof_key") == Text(live)
  }

  ghost predicate EmitsLists(c: Contract, title: string, owner: string, required: string, forbidden: string,
                             hotspots: seq<string>, methods: seq<string>)
  {
    && Get(c, "required_behavior") == TextItems([required]) && Get(c, "forbidden_behavior") == TextItems([forbidden])
    && Get(c, "user_visible_expectation") == TextItems(["User can observe outcome for: " + title])
    && Get(c, "state_expectation") == TextItems(["state evidence recorded for: " + title])
    && Get(c, "code_hotspots") == TextItems(hotspots) && Get(c, "acceptance_tests") == TextItems([owner])
    && Get(c, "verification_methods") == TextItems(methods) && Get(c, "done_rule") == DoneRule()
  }

  ghost predicate Emits(c: Contract, id: string, title: string, owner: string, live: string, required: string,
                        forbidden: string, hotspots: seq<string>, methods: seq<string>)
  {
    EmitsTexts(c, id, title, owner, live) && EmitsLists(c, title, owner, required, forbidden, hotspots, methods)
  }

  lemma ContractTexts(id: string, title: string, owner: string, live: string, required: string, forbidden: string,
                      hotspots: seq<string>, methods: seq<string>)
    ensures EmitsTexts(ContractOf(id, title, owner, live, required, forbidden, hotspots, methods), id, title, owner, live)
  {
  }

  lemma TextsAt(h: Host, scope: string, idx: nat, s: Segment, slug: string, digest: string)
    ensures EmitsTexts(RequirementContract(h, scope, idx, s, slug, digest), RequirementId(h, scope, idx, digest),
                       s.text, OwnerTest(OwnerFragment(h, slug, digest)), LiveKey(h, scope, idx, slug))
  {
    var required, forbidden := RequiredText(s), ForbiddenText(s);
    ContractTexts(RequirementId(h, scope, idx, digest), s.text, OwnerTest(OwnerFragment(h, slug, digest)),
                  LiveKey(h, scope, idx, slug), required, forbidden, InferHotspots(h, s.text),
                  InferMethods(h, s.text, required, forbidden, s.kind));
  }

  lemma ContractLists(id: string, title: string, owner: string, live: string, required: string, forbidden: string,
                      hotspots: seq<string>, methods: seq<string>)
    ensures EmitsLists(ContractOf(id, title, owner, live, required, forbidden, hotspots, methods), title, owner, required,
                       forbidden, hotspots, methods)
  {
  }

  lemma NothingMissing(id: string, title: string, owner: string, live: string, required: string, forbidden: string,
                       hotspots: seq<string>, methods: seq<string>)
    ensures Present(ContractOf(id, title, owner, live, required, forbidden, hotspots, methods), REQUIRED_FIELDS)
  {
  }

  lemma HotspotList(h: Host, text: string)
    ensures IsTextList(TextItems(InferHotspots(h, text)))
  {
    HotspotHeads(h, text);
    VisibleTexts(InferHotspots(h, text));
  }

  predicate IsPath(x: string)
  {
    x != "" && x[0] == 'g'
  }

  lemma HotspotHeads(h: Host, text: string)
    ensures InferHotspots(h, text) != [] && forall x <- InferHotspots(h, text) :: IsPath(x)
  {
    var lower := Lower(h, text);
    var a, b, c := ENTRYPOINTS + "session_reader.py", ENTRYPOINTS + "implement_start.py",
                   ENTRYPOINTS + "review_decision_persist.py";
    var d, e := ENTRYPOINTS + "implementation_decision_persist.py", RUNTIME + "receipts/match.py";
    assert RUNTIME[0] == 'g' && ENTRYPOINTS[0] == 'g';
    FiveHeads(a, b, c, d, e, Contains(lower, "implement"), ContainsAny(lower, ["review-decision", "review decision"]),
              ContainsAny(lower, ["implementation-decision", "implementation decision"]), Contains(lower, "receipt"),
              InferHotspots(h, text));
  }

  lemma FiveHeads(a: string, b: string, c: string, d: string, e: string, p: bool, q: bool, r: bool, t: bool,
                  hs: seq<string>)
    requires IsPath(a) && IsPath(b) && IsPath(c) && IsPath(d) && IsPath(e)
    requires hs == [a] + (if p then [b] else []) + (if q then [c] else []) + (if r then [d] else [])
                   + (if t then [e] else [])
    ensures forall x <- hs :: IsPath(x)
  {
    forall x | x in hs
      ensures IsPath(x)
    {
      assert x == a || x == b || x == c || x == d || x == e;
    }
  }

  lemma VisibleTexts(texts: seq<string>)
    requires texts != [] && forall x <- texts :: x != "" && !IsSpace(x[0])
    ensures IsTextList(TextItems(texts))
  {
    forall k | 0 <= k < |texts|
      ensures IsTextItem(TextItems(texts).items[k])
    {
      assert texts[k] in texts;
      VisibleHead(texts[k]);
    }
  }

  lemma ListsOk(c: Contract, id: string, title: string, owner: string, live: string, required: string,
                forbidden: string, hotspots: seq<string>, methods: seq<string>)
    requires Emits(c, id, title, owner, live, required, forbidden, hotspots, methods)
    requires owner != "" && !IsSpace(owner[0]) && required != "" && !IsSpace(required[0])
    requires forbidden != "" && !IsSpace(forbidden[0]) && IsTextList(TextItems(hotspots))
    ensures AllTextLists(c, LIST_FIELDS)
  {
    OneText(owner);
    OneText(required);
    OneText(forbidden);
    OneText("User can observe outcome for: " + title);
    OneText("state evidence recorded for: " + title);
  }

  lemma TextsOk(show: Show, c: Contract, id: string, title: string, owner: string, live: string, required: string,
                forbidden: string, hotspots: seq<string>, methods: seq<string>)
    requires Emits(c, id, title, owner, live, required, forbidden, hotspots, methods)
    requires id != "" && !IsSpace(id[0]) && title != "" && !IsSpace(title[0])
    requires owner != "" && !IsSpace(owner[0]) && live != "" && !IsSpace(live[0])
    ensures NoneBlank(show, c, TEXT_FIELDS)
  {
  }

  lemma MethodsAreOk(h: Host, show: Show, c: Contract, id: string, title: string, owner: string, live: string,
                     required: string, forbidden: string, hotspots: seq<string>, methods: seq<string>, kind: Kind)
    requires Emits(c, id, title, owner, live, required, forbidden, hotspots, methods)
    requires methods == InferMethods(h, title, required, forbidden, kind) && Trimmed(title)
    ensures IsTextList(Get(c, "verification_methods"))
    ensures MethodsOk(h, show, c, StripItems(Get(c, "verification_methods").items))
  {
    InferredMethodsAreAllowed(h, title, required, forbidden, kind);
    MethodItems(methods);
    TextOf(show, "important");
    TextOf(show, title);
    assert TextItems([forbidden]).items == [Text(forbidden)];
    if NeedsReceipts(h, show, c) {
      ReceiptsFollow(h, title, required, forbidden, kind);
    }
  }

  lemma DoneRuleIsOk()
    ensures DoneRule().Dict? && AllFlags(DoneRule().fields, DONE_FLAGS)
  {
  }

  lemma ImportantIsAllowed(show: Show)
    ensures AsText(show, Text("important")) in CRITICALITIES
  {
    TextOf(show, "important");
  }

  lemma EmittedHeads(h: Host, scope: string, idx: nat, s: Segment, slug: string, digest: string)
    requires s.text != "" && Trimmed(s.text)
    ensures var id := RequirementId(h, scope, idx, digest); id != "" && !IsSpace(id[0])
    ensures RequiredText(s) != "" && !IsSpace(RequiredText(s)[0])
    ensures ForbiddenText(s) != "" && !IsSpace(ForbiddenText(s)[0])
  {
    UpperHead(h, "R-" + scope + "-" + Pad3(idx) + "-" + digest);
  }

  lemma FieldsAreWellFormed(h: Host, show: Show, id: string, title: string, owner: string, live: string,
                            required: string, forbidden: string, hotspots: seq<string>, kind: Kind)
    requires id != "" && !IsSpace(id[0]) && title != "" && Trimmed(title)
    requires owner != "" && !IsSpace(owner[0]) && live != "" && !IsSpace(live[0])
    requires required != "" && !IsSpace(required[0]) && forbidden != "" && !IsSpace(forbidden[0])
    requires IsTextList(TextItems(hotspots))
    ensures WellFormed(h, show, ContractOf(id, title, owner, live, required, forbidden, hotspots,
                                           InferMethods(h, title, required, forbidden, kind)))
  {
    var methods := InferMethods(h, title, required, forbidden, kind);
    var c := ContractOf(id, title, owner, live, required, forbidden, hotspots, methods);
    ContractTexts(id, title, owner, live, required, forbidden, hotspots, methods);
    ContractLists(id, title, owner, live, required, forbidden, hotspots, methods);
    NothingMissing(id, title, owner, live, required, forbidden, hotspots, methods);
    EmittedFieldsAreOk(h, show, c, id, title, owner, live, required, forbidden, hotspots, methods, kind);
  }

  lemma EmittedFieldsAreOk(h: Host, show: Show, c: Contract, id: string, title: string, owner: string, live: string,
                           required: string, forbidden: string, hotspots: seq<string>, methods: seq<string>,
                           kind: Kind)
    requires Present(c, REQUIRED_FIELDS)
    requires Emits(c, id, title, owner, live, required, forbidden, hotspots, methods)
    requires id != "" && !IsSpace(id[0]) && title != "" && Trimmed(title)
    requires owner != "" && !IsSpace(owner[0]) && live != "" && !IsSpace(live[0])
    requires required != "" && !IsSpace(required[0]) && forbidden != "" && !IsSpace(forbidden[0])
    requires IsTextList(TextItems(hotspots)) && methods == InferMethods(h, title, required, forbidden, kind)
    ensures WellFormed(h, show, c)
  {
    ListsOk(c, id, title, owner, live, required, forbidden, hotspots, methods);
    TextsOk(show, c, id, title, owner, live, required, forbidden, hotspots, methods);
    MethodsAreOk(h, show, c, id, title, owner, live, required, forbidden, hotspots, methods, kind);
    DoneRuleIsOk();
    ImportantIsAllowed(show);
  }

  /** Whatever the segment, slug and digest: the emitted contract is well formed, so no error is due. */
  lemma EmittedIsWellFormed(h: Host, show: Show, scope: string, idx: nat, s: Segment, slug: string, digest: string)
    requires s.text != "" && Trimmed(s.text)
    ensures WellFormed(h, show, RequirementContract(h, scope, idx, s, slug, digest))
  {
    EmittedHeads(h, scope, idx, s, slug, digest);
    HotspotList(h, s.text);
    FieldsAreWellFormed(h, show, RequirementId(h, scope, idx, digest), s.text, OwnerTest(OwnerFragment(h, slug, digest)),
                        LiveKey(h, scope, idx, slug), RequiredText(s), ForbiddenText(s), InferHotspots(h, s.text), s.kind);
  }

  /** A done rule that asks for everything it can ask for. */
  ghost predicate AllTrue(rule: Value)
  {
    rule.Dict? && forall key <- DONE_FLAGS :: key in rule.fields && rule.fields[key] == Flag(true)
  }

  lemma DoneRuleIsTrue()
    ensures AllTrue(DoneRule())
  {
  }

  /** What an emitted contract says, field by field, in terms of the segment it was made from. */
  lemma EmittedContractSays(h: Host, scope: string, idx: nat, s: Segment, slug: string, digest: string, c: Contract)
    requires c == RequirementContract(h, scope, idx, s, slug, digest)
    ensures Get(c, "title") == Text(s.text) && Get(c, "criticality") == Text("important")
    ensures s.kind == Forbidden ==>
              && Get(c, "required_behavior") == TextItems(["Prevent forbidden behavior: " + s.text])
              && Get(c, "forbidden_behavior") == TextItems([s.text])
    ensures s.kind != Forbidden ==>
              && Get(c, "required_behavior") == TextItems(["Implement: " + s.text])
              && Get(c, "forbidden_behavior") == TextItems(["forbid state: " + s.text + " not satisfied"])
    ensures Get(c, "user_visible_expectation") == TextItems(["User can observe outcome for: " + s.text])
    ensures Get(c, "state_expectation") == TextItems(["state evidence recorded for: " + s.text])
    ensures Get(c, "owner_test").Text? && Get(c, "acceptance_tests") == TextItems([Get(c, "owner_test").s])
    ensures AllTrue(Get(c, "done_rule"))
    ensures Get(c, "code_hotspots") == TextItems(InferHotspots(h, s.text))
    ensures Get(c, "verification_methods") ==
            TextItems(InferMethods(h, s.text, Get(c, "required_behavior").items[0].s,
                                   Get(c, "forbidden_behavior").items[0].s, s.kind))
  {
    DoneRuleIsTrue();
    TextsAt(h, scope, idx, s, slug, digest);
    var required, forbidden := RequiredText(s), ForbiddenText(s);
    ContractLists(RequirementId(h, scope, idx, digest), s.text, OwnerTest(OwnerFragment(h, slug, digest)),
                  LiveKey(h, scope, idx, slug), required, forbidden, InferHotspots(h, s.text),
                  InferMethods(h, s.text, required, forbidden, s.kind));
  }

  // ---------------------------------------------------------------------
  // Ids, live keys and owner tests of a batch
  // ---------------------------------------------------------------------

  lemma UpperFixed(h: Host, s: string)
    requires forall c <- s :: c == '-' || '0' <= c <= '9'
    ensures Upper(h, s) == s
  {
    MapCharsFixed(c => UpperChar(h, c), s);
  }

  /** An id is the upper-cased scope, the padded index as it stands, and the upper-cased digest. */
  lemma IdParts(h: Host, scope: string, idx: nat, digest: string)
    ensures RequirementId(h, scope, idx, digest)
         == Upper(h, "R-" + scope + "-") + Pad3(idx) + "-" + Upper(h, digest)
  {
    var f := c => UpperChar(h, c);
    var head := "R-" + scope + "-";
    MapCharsAppend(f, head + Pad3(idx) + "-", digest);
    MapCharsAppend(f, head + Pad3(idx), "-");
    MapCharsAppend(f, head, Pad3(idx));
    UpperFixed(h, Pad3(idx));
    UpperFixed(h, "-");
  }

  lemma HexCase(h: Host, digest: Hex8)
    ensures Lower(h, digest) == digest
    ensures |Upper(h, digest)| == 8 && !IsSpace(Upper(h, digest)[7])
  {
    MapCharsFixed(c => LowerChar(h, c), digest);
    var f := c => UpperChar(h, c);
    forall c | c in digest
      ensures |f(c)| == 1 && !IsSpace(f(c)[0])
    {
    }
    MapCharsPointwise(f, digest);
    assert [Upper(h, digest)[7]] == f(digest[7]);
  }

  lemma EndsVisible(a: string, b: string)
    requires a != "" && !IsSpace(a[0]) && b != "" && !IsSpace(b[|b| - 1])
    ensures Trimmed(a + b)
  {
  }

  lemma IdIsTrimmed(h: Host, scope: string, idx: nat, digest: Hex8)
    ensures Trimmed(RequirementId(h, scope, idx, digest)) && RequirementId(h, scope, idx, digest) != ""
  {
    IdParts(h, scope, idx, digest);
    HexCase(h, digest);
    UpperHead(h, "R-" + scope + "-");
    EndsVisible(Upper(h, "R-" + scope + "-") + Pad3(idx) + "-", Upper(h, digest));
  }

  lemma SlugCharIsVisible(h: Host, c: char)
    requires IsSlugChar(h, c)
    ensures !IsSpace(c)
  {
  }

  lemma LiveKeyIsTrimmed(h: Host, scope: string, idx: nat, slug: string)
    requires slug != "" && forall c <- slug :: IsSlugChar(h, c)
    ensures Trimmed(LiveKey(h, scope, idx, slug))
  {
    var cut := Cut(slug, 20);
    var last := cut[|cut| - 1];
    assert last in slug;
    SlugCharIsVisible(h, last);
    EndsVisible("lp-" + Lower(h, scope) + "-" + Pad3(idx) + "-", cut);
  }

  lemma OwnerTestIsTrimmed(h: Host, slug: string, digest: Hex8)
    ensures Trimmed(OwnerTest(OwnerFragment(h, slug, digest)))
  {
    HexCase(h, digest);
    var fragment := OwnerFragment(h, slug, digest);
    assert fragment[|fragment| - 1] == digest[7] && digest[7] in digest;
    EndsVisible("tests/test_contract_" + fragment + ".py::test_", fragment);
  }

  lemma OwnerTestsDiffer(a: string, b: string)
    ensures OwnerTest(a) == OwnerTest(b) <==> a == b
  {
    var x, y := OwnerTest(a), OwnerTest(b);
    assert |x| == 30 + 2 * |a| && |y| == 30 + 2 * |b|;
    if x == y {
      assert a == x[20..20 + |a|] && b == y[20..20 + |b|];
    }
  }

  /** A slug as it stands in an owner test. */
  ghost function First36(slug: string): string
  {
    if |slug| <= 36 then slug else slug[..36]
  }

  lemma FragmentMeans(h: Host, slug: string, d: Hex8)
    requires slug != ""
    ensures OwnerFragment(h, slug, d) == First36(slug) + "-" + d
  {
    HexCase(h, d);
  }

  /** Equal fragments have equal digests, which they end in, and equal slugs up to the cut. */
  lemma SameFragment(h: Host, a: string, b: string, d: Hex8, e: Hex8)
    requires a != "" && b != ""
    ensures OwnerFragment(h, a, d) == OwnerFragment(h, b, e) <==> First36(a) == First36(b) && d == e
  {
    FragmentMeans(h, a, d);
    FragmentMeans(h, b, e);
    var x, y := First36(a) + "-" + d, First36(b) + "-" + e;
    assert x[|x| - 8..] == d && y[|y| - 8..] == e;
    assert x[..|x| - 9] == First36(a) && y[..|y| - 9] == First36(b);
  }

  /** What the names and keys of an emitted contract are made of: the scope, the padded index, the digest and the slug. */
  lemma EmittedNamesSay(h: Host, scope: string, idx: nat, s: Segment, slug: string, digest: Hex8, c: Contract)
    requires c == RequirementContract(h, scope, idx, s, slug, digest) && slug != ""
    ensures Get(c, "id") == Text(Upper(h, "R-" + scope + "-") + Pad3(idx) + "-" + Upper(h, digest))
    ensures var fragment := First36(slug) + "-" + digest;
            Get(c, "owner_test") == Text("tests/test_contract_" + fragment + ".py::test_" + fragment)
    ensures Get(c, "live_proof_key") ==
            Text("lp-" + Lower(h, scope) + "-" + Pad3(idx) + "-" + if |slug| <= 20 then slug else slug[..20])
  {
    TextsAt(h, scope, idx, s, slug, digest);
    IdParts(h, scope, idx, digest);
    FragmentMeans(h, slug, digest);
  }

  // ---------------------------------------------------------------------
  // A whole compilation
  // ---------------------------------------------------------------------

  lemma IdAt(h: Host, show: Show, scope: string, segments: seq<Segment>, k: nat, c: Contract)
    requires k < |segments| && c == ContractAt(h, scope, segments, k)
    ensures IdOf(show, c, k + 1) == RequirementId(h, scope, k + 1, DigestAt(h, scope, segments, k))
  {
    var digest := DigestAt(h, scope, segments, k);
    TextsAt(h, scope, k + 1, segments[k], SlugAt(h, segments, k), digest);
    IdIsTrimmed(h, scope, k + 1, digest);
    TextOf(show, RequirementId(h, scope, k + 1, digest));
  }

  lemma OwnerAt(h: Host, show: Show, scope: string, segments: seq<Segment>, k: nat, c: Contract)
    requires k < |segments| && c == ContractAt(h, scope, segments, k)
    ensures AsText(show, Get(c, "owner_test")) == OwnerTest(FragmentAt(h, scope, segments, k))
  {
    var slug, digest := SlugAt(h, segments, k), DigestAt(h, scope, segments, k);
    TextsAt(h, scope, k + 1, segments[k], slug, digest);
    OwnerTestIsTrimmed(h, slug, digest);
    TextOf(show, OwnerTest(OwnerFragment(h, slug, digest)));
  }

  lemma LiveAt(h: Host, show: Show, scope: string, segments: seq<Segment>, k: nat, c: Contract)
    requires k < |segments| && c == ContractAt(h, scope, segments, k)
    ensures AsText(show, Get(c, "live_proof_key")) == LiveKey(h, scope, k + 1, SlugAt(h, segments, k))
  {
    var slug := SlugAt(h, segments, k);
    TextsAt(h, scope, k + 1, segments[k], slug, DigestAt(h, scope, segments, k));
    SlugShape(h, segments[k].text);
    LiveKeyIsTrimmed(h, scope, k + 1, slug);
    TextOf(show, LiveKey(h, scope, k + 1, slug));
  }

  /** `head` is the part of every id that depends on the scope alone. */
  ghost predicate IsIdHead(h: Host, scope: string, head: string)
  {
    forall s {:trigger Upper(h, s)} :: s == "R-" + scope + "-" ==> Upper(h, s) == head
  }

  ghost predicate IsLiveHead(h: Host, scope: string, head: string)
  {
    forall s {:trigger Lower(h, s)} :: s == scope ==> "lp-" + Lower(h, s) + "-" == head
  }

  lemma IdShape(h: Host, scope: string, idx: nat, digest: string, head: string, id: string)
    returns (pad: string, rest: string)
    requires id == RequirementId(h, scope, idx, digest) && IsIdHead(h, scope, head)
    ensures id == head + pad + "-" + rest && '-' !in pad && ValueOf(pad) == idx
  {
    pad, rest := Pad3(idx), Upper(h, digest);
    IdParts(h, scope, idx, digest);
    Pad3IsDashFree(idx);
  }

  lemma ViewedId(h: Host, show: Show, scope: string, segments: seq<Segment>, view: View, k: nat, c: Contract,
                 head: string) returns (pad: string, rest: string)
    requires Mirrors(view, h, show) && k < |segments| && c == ContractAt(h, scope, segments, k)
    requires IsIdHead(h, scope, head)
    ensures view.id(c, k + 1) == head + pad + "-" + rest && '-' !in pad && ValueOf(pad) == k + 1
  {
    IdAt(h, show, scope, segments, k, c);
    pad, rest := IdShape(h, scope, k + 1, DigestAt(h, scope, segments, k), head, view.id(c, k + 1));
  }

  lemma ViewedLive(h: Host, show: Show, scope: string, segments: seq<Segment>, view: View, k: nat, c: Contract,
                   head: string) returns (pad: string, rest: string)
    requires Mirrors(view, h, show) && k < |segments| && c == ContractAt(h, scope, segments, k)
    requires IsLiveHead(h, scope, head)
    ensures view.live(c) == head + pad + "-" + rest && '-' !in pad && ValueOf(pad) == k + 1
  {
    pad, rest := Pad3(k + 1), Cut(SlugAt(h, segments, k), 20);
    LiveAt(h, show, scope, segments, k, c);
    Pad3IsDashFree(k + 1);
  }

  lemma ViewedOwner(h: Host, show: Show, scope: string, segments: seq<Segment>, view: View, k: nat, c: Contract)
    returns (fragment: string)
    requires Mirrors(view, h, show) && k < |segments| && c == ContractAt(h, scope, segments, k)
    ensures fragment == FragmentAt(h, scope, segments, k) && view.owner(c) == OwnerTest(fragment)
  {
    fragment := FragmentAt(h, scope, segments, k);
    OwnerAt(h, show, scope, segments, k, c);
  }

  /** The contracts of a compilation behind names, so that proofs about the batch need not look inside them. */
  ghost predicate Emitted(h: Host, scope: string, segments: seq<Segment>, contracts: seq<Contract>,
                          fragments: seq<string>)
  {
    && |contracts| == |fragments| == |segments|
    && (forall k: nat {:trigger ContractAt(h, scope, segments, k)} :: k < |segments| ==>
          contracts[k] == ContractAt(h, scope, segments, k))
    && (forall k: nat {:trigger FragmentAt(h, scope, segments, k)} :: k < |segments| ==>
          fragments[k] == FragmentAt(h, scope, segments, k))
  }

  lemma IdsAreDistinct(h: Host, show: Show, scope: string, segments: seq<Segment>, view: View,
                       contracts: seq<Contract>, fragments: seq<string>)
    requires Mirrors(view, h, show) && Emitted(h, scope, segments, contracts, fragments)
    ensures NoDuplicates(IdsOf(view, contracts)) && NoDuplicates(LivesOf(view, contracts))
    ensures NoDuplicates(OwnersOf(view, contracts)) <==> NoDuplicates(fragments)
  {
    var owners := OwnersOf(view, contracts);
    forall j, k | 0 <= j < k < |contracts|
      ensures IdsOf(view, contracts)[j] != IdsOf(view, contracts)[k]
      ensures LivesOf(view, contracts)[j] != LivesOf(view, contracts)[k]
      ensures owners[j] == owners[k] <==> fragments[j] == fragments[k]
    {
      PairDiffers(h, show, scope, segments, view, contracts, fragments, j, k);
    }
  }

  lemma PairIds(h: Host, show: Show, scope: string, segments: seq<Segment>, view: View, j: nat, k: nat,
               c: Contract, d: Contract, head: string)
    requires Mirrors(view, h, show) && j < k < |segments|
    requires c == ContractAt(h, scope, segments, j) && d == ContractAt(h, scope, segments, k)
    requires IsIdHead(h, scope, head)
    ensures view.id(c, j + 1) != view.id(d, k + 1)
  {
    var p, x := ViewedId(h, show, scope, segments, view, j, c, head);
    var q, y := ViewedId(h, show, scope, segments, view, k, d, head);
    if view.id(c, j + 1) == view.id(d, k + 1) {
      DashSeparates(head, p, q, x, y);
    }
  }

  lemma PairLives(h: Host, show: Show, scope: string, segments: seq<Segment>, view: View, j: nat, k: nat,
               c: Contract, d: Contract, head: string)
    requires Mirrors(view, h, show) && j < k < |segments|
    requires c == ContractAt(h, scope, segments, j) && d == ContractAt(h, scope, segments, k)
    requires IsLiveHead(h, scope, head)
    ensures view.live(c) != view.live(d)
  {
    var p, x := ViewedLive(h, show, scope, segments, view, j, c, head);
    var q, y := ViewedLive(h, show, scope, segments, view, k, d, head);
    if view.live(c) == view.live(d) {
      DashSeparates(head, p, q, x, y);
    }
  }

  lemma PairOwners(h: Host, show: Show, scope: string, segments: seq<Segment>, view: View, j: nat, k: nat,
               c: Contract, d: Contract)
    requires Mirrors(view, h, show) && j < k < |segments|
    requires c == ContractAt(h, scope, segments, j) && d == ContractAt(h, scope, segments, k)
    ensures view.owner(c) == view.owner(d) <==>
              FragmentAt(h, scope, segments, j) == FragmentAt(h, scope, segments, k)
  {
    var x := ViewedOwner(h, show, scope, segments, view, j, c);
    var y := ViewedOwner(h, show, scope, segments, view, k, d);
    OwnerTestsDiffer(x, y);
  }

  lemma PairDiffers(h: Host, show: Show, scope: string, segments: seq<Segment>, view: View,
                    contracts: seq<Contract>, fragments: seq<string>, j: nat, k: nat)
    requires Mirrors(view, h, show) && Emitted(h, scope, segments, contracts, fragments) && j < k < |contracts|
    ensures view.id(contracts[j], j + 1) != view.id(contracts[k], k + 1)
    ensures view.live(contracts[j]) != view.live(contracts[k])
    ensures view.owner(contracts[j]) == view.owner(contracts[k]) <==> fragments[j] == fragments[k]
  {
    PairIds(h, show, scope, segments, view, j, k, contracts[j], contracts[k], Upper(h, "R-" + scope + "-"));
    PairLives(h, show, scope, segments, view, j, k, contracts[j], contracts[k], "lp-" + Lower(h, scope) + "-");
    PairOwners(h, show, scope, segments, view, j, k, contracts[j], contracts[k]);
  }

  lemma WellFormedAt(h: Host, show: Show, scope: string, segments: seq<Segment>, k: nat, c: Contract)
    requires Visible(segments) && k < |segments| && c == ContractAt(h, scope, segments, k)
    ensures WellFormed(h, show, c)
  {
    EmittedIsWellFormed(h, show, scope, k + 1, segments[k], SlugAt(h, segments, k), DigestAt(h, scope, segments, k));
  }

  lemma AllWellFormed(h: Host, show: Show, scope: string, segments: seq<Segment>)
    requires Visible(segments)
    ensures forall c <- Contracts(h, scope, segments) :: WellFormed(h, show, c)
  {
    var contracts := Contracts(h, scope, segments);
    forall c | c in contracts
      ensures WellFormed(h, show, c)
    {
      var k :| 0 <= k < |contracts| && contracts[k] == c;
      WellFormedAt(h, show, scope, segments, k, c);
    }
  }

  lemma ContractsAreEmitted(h: Host, scope: string, segments: seq<Segment>)
    ensures Emitted(h, scope, segments, Contracts(h, scope, segments), Fragments(h, scope, segments))
  {
  }

  lemma EmittedBatch(h: Host, show: Show, scope: string, segments: seq<Segment>, contracts: seq<Contract>,
                     fragments: seq<string>)
    requires Emitted(h, scope, segments, contracts, fragments)
    requires forall c <- contracts :: WellFormed(h, show, c)
    ensures BatchValid(h, show, contracts) <==> NoDuplicates(fragments)
  {
    var view := RealView(h, show, contracts);
    IdsAreDistinct(h, show, scope, segments, view, contracts, fragments);
  }

  /** Two requirements that would be tested by the same test: the digests agree, and the slugs up to the cut. */
  ghost predicate ShareTest(h: Host, scope: string, segments: seq<Segment>, j: nat, k: nat)
    requires j < |segments| && k < |segments|
  {
    && DigestAt(h, scope, segments, j) == DigestAt(h, scope, segments, k)
    && First36(SlugAt(h, segments, j)) == First36(SlugAt(h, segments, k))
  }

  lemma FragmentsAreShared(h: Host, scope: string, segments: seq<Segment>)
    ensures NoDuplicates(Fragments(h, scope, segments)) <==>
            forall j, k :: 0 <= j < k < |segments| ==> !ShareTest(h, scope, segments, j, k)
  {
    var fragments := Fragments(h, scope, segments);
    forall j, k | 0 <= j < k < |segments|
      ensures fragments[j] == fragments[k] <==> ShareTest(h, scope, segments, j, k)
    {
      PairIsShared(h, scope, segments, j, k);
    }
  }

  lemma PairIsShared(h: Host, scope: string, segments: seq<Segment>, j: nat, k: nat)
    requires j < |segments| && k < |segments|
    ensures FragmentAt(h, scope, segments, j) == FragmentAt(h, scope, segments, k) <==> ShareTest(h, scope, segments, j, k)
  {
    SlugShape(h, segments[j].text);
    SlugShape(h, segments[k].text);
    SameFragment(h, SlugAt(h, segments, j), SlugAt(h, segments, k), DigestAt(h, scope, segments, j),
                 DigestAt(h, scope, segments, k));
  }

  /**
   The batch passes exactly when no two requirements share both their cut slug
   and their digest: ids and live keys already differ through the padded index.
   */
  lemma CompiledBatch(h: Host, show: Show, scope: string, segments: seq<Segment>)
    requires Visible(segments)
    ensures BatchValid(h, show, Contracts(h, scope, segments)) <==>
            forall j, k :: 0 <= j < k < |segments| ==> !ShareTest(h, scope, segments, j, k)
  {
    AllWellFormed(h, show, scope, segments);
    ContractsAreEmitted(h, scope, segments);
    EmittedBatch(h, show, scope, segments, Contracts(h, scope, segments), Fragments(h, scope, segments));
    FragmentsAreShared(h, scope, segments);
  }

  /** In particular it passes when the digests are pairwise distinct. */
  lemma DistinctDigestsSuffice(h: Host, show: Show, scope: string, segments: seq<Segment>)
    requires Visible(segments)
    requires forall j, k :: 0 <= j < k < |segments| ==> DigestAt(h, scope, segments, j) != DigestAt(h, scope, segments, k)
    ensures BatchValid(h, show, Contracts(h, scope, segments))
  {
    CompiledBatch(h, show, scope, segments);
  }

  /** A batch that fails: two equal segments under a host that gives every text the same digest. */
  lemma CollidingDigestsFail(h: Host, show: Show, scope: string, segments: seq<Segment>)
    requires h == Host(_ => false, _ => false, c => [c], c => [c], _ => "00000000")
    requires segments == [Segment(Required, "x"), Segment(Required, "x")]
    ensures !BatchValid(h, show, Contracts(h, scope, segments))
  {
    CompiledBatch(h, show, scope, segments);
    assert ShareTest(h, scope, segments, 0, 1);
  }

  /** What compiling any ticket, task and plan text yields passes the validator, one contract at a time. */
  lemma CompiledPlanIsWellFormed(h: Host, show: Show, scope: string, ticket: string, task: string, plan: string)
    ensures forall c <- Contracts(h, scope, PlanSegments(h, ticket, task, plan)) :: WellFormed(h, show, c)
  {
    PlanSegmentsVisible(h, ticket, task, plan);
    AllWellFormed(h, show, scope, PlanSegments(h, ticket, task, plan));
  }

  /** ... and as a batch exactly when no two requirements share cut slug and digest. */
  lemma CompiledPlanIsValid(h: Host, show: Show, scope: string, ticket: string, task: string, plan: string)
    ensures var segments := PlanSegments(h, ticket, task, plan);
            BatchValid(h, show, Contracts(h, scope, segments)) <==>
            forall j, k :: 0 <= j < k < |segments| ==> !ShareTest(h, scope, segments, j, k)
  {
    PlanSegmentsVisible(h, ticket, task, plan);
    CompiledBatch(h, show, scope, PlanSegments(h, ticket, task, plan));
  }
}
