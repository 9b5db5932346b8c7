/** Evidence freshness, and which claims a session document verifies. */
module EvidencePolicy {
  import opened Options
  import opened PyText
  import opened Casing
  import opened TextOrder

  const SECOND := 1_000_000
  const DAY_SECONDS := 86_400

  /** The timing part of a piece of evidence; times in microseconds, `None` where absent or unusable. */
  datatype Timing = Timing(observedAt: Option<int>, ttl: Option<int>, class_: Option<string>)

  function TtlSeconds(h: Host, t: Timing): (r: nat)
    ensures t.ttl.Some? && t.ttl.value >= 0 ==> r == t.ttl.value
  {
    if t.ttl.Some? && t.ttl.value >= 0 then t.ttl.value
    else
      var name := Lower(h, Strip(if t.class_.Some? then t.class_.value else "gate_evidence"));
      if name == "identity_signal" || name == "preflight_probe" then 0 else DAY_SECONDS
  }

  function IsStale(observedAt: Option<int>, ttl: nat, now: int): bool
  {
    if observedAt.None? then true
    else if ttl == 0 then now - observedAt.value > SECOND
    else now - observedAt.value > ttl * SECOND
  }

  function Stale(h: Host, t: Timing, now: int): bool
  {
    IsStale(t.observedAt, TtlSeconds(h, t), now)
  }

  /**
   There is one moment after which evidence is stale and up to which it is
   fresh; a TTL of 0 counts as one second, and evidence of no known time is
   stale throughout.
   */
  lemma StaleFromAMomentOn(h: Host, t: Timing, now: int)
    ensures var window := if TtlSeconds(h, t) == 0 then 1 else TtlSeconds(h, t);
            Stale(h, t, now) <==> t.observedAt.None? || now > t.observedAt.value + window * SECOND
  {
  }

  lemma StalenessLasts(h: Host, t: Timing, now: int, later: int)
    requires now <= later
    ensures Stale(h, t, now) ==> Stale(h, t, later)
  {
  }

  // ---------------------------------------------------------------------
  // Verified claims
  // ---------------------------------------------------------------------

  datatype Item =
    | NotAMapping
    | Item(result: string, verified: bool, evidenceId: Option<string>, claimId: Option<string>, labelText: Option<string>,
           timing: Timing)

  /** `claimsStale` entries that are not text are `None`. */
  datatype BuildEvidence = BuildEvidence(claimsStale: seq<Option<string>>, items: seq<Item>)

  /** `nested` is `Some` when the document has a session-state mapping, which then hides the document's own evidence. */
  datatype SessionDocument = SessionDocument(nested: Option<Option<BuildEvidence>>, own: Option<BuildEvidence>)

  /** What the extraction depends on: case tables, the canonical form of a claim label, and the time. */
  datatype Context = Context(host: Host, canonical: string -> string, now: int)

  function Evidence(doc: Option<SessionDocument>): Option<BuildEvidence>
  {
    if doc.None? then None
    else if doc.value.nested.Some? then doc.value.nested.value
    else doc.value.own
  }

  function Passes(c: Context, i: Item): bool
    requires i.Item?
  {
    var result := Lower(c.host, Strip(i.result));
    i.verified || result == "pass" || result == "passed" || result == "ok" || result == "success"
  }

  /** The evidence id, else the claim id, else the canonical form of the label; empty when there is none. */
  function IdOf(c: Context, i: Item): string
    requires i.Item?
  {
    if Trim(i.evidenceId) != "" then Trim(i.evidenceId)
    else if Trim(i.claimId) != "" then Trim(i.claimId)
    else if Trim(i.labelText) != "" then c.canonical(i.labelText.value)
    else ""
  }

  /** The id a passing item stands for; empty when it stands for none. */
  function ClaimOf(c: Context, i: Item): string
  {
    if i.Item? && Passes(c, i) then IdOf(c, i) else ""
  }

  predicate Claims(c: Context, i: Item, id: string)
  {
    id != "" && ClaimOf(c, i) == id
  }

  function ItemStale(c: Context, i: Item): bool
  {
    i.NotAMapping? || Stale(c.host, i.timing, c.now)
  }

  predicate ListedStale(b: BuildEvidence, id: string)
  {
    id != "" && exists k :: 0 <= k < |b.claimsStale| && Trim(b.claimsStale[k]) == id
  }

  ghost predicate SomeFresh(c: Context, items: seq<Item>, id: string)
  {
    exists k :: 0 <= k < |items| && Claims(c, items[k], id) && !ItemStale(c, items[k])
  }

  ghost predicate SomeStale(c: Context, items: seq<Item>, id: string)
  {
    exists k :: 0 <= k < |items| && Claims(c, items[k], id) && ItemStale(c, items[k])
  }

  /** The two lists of claim ids, each sorted. */
  datatype Verified = Verified(observed: seq<string>, stale: seq<string>)

  /** What the two id sets mean. */
  ghost predicate IsExtraction(c: Context, doc: Option<SessionDocument>, v: Verified)
  {
    match Evidence(doc)
    case None => v == Verified([], [])
    case Some(b) =>
      && Ascending(v.observed) && Ascending(v.stale)
      && (forall id :: id in v.observed <==> SomeFresh(c, b.items, id))
      && (forall id :: id in v.stale <==>
                       !SomeFresh(c, b.items, id) && (ListedStale(b, id) || SomeStale(c, b.items, id)))
  }

  method ExtractVerified(c: Context, doc: Option<SessionDocument>) returns (v: Verified)
    ensures IsExtraction(c, doc, v)
  {
    var evidence := Evidence(doc);
    if evidence.None? {
      return Verified([], []);
    }
    var b := evidence.value;
    var listed := CollectListed(b);
    var observed, stale := PartItems(c, b.items);
    var observedIds := SortTexts(observed);
    var staleIds := SortTexts((listed + stale) - observed);
    v := Verified(observedIds, staleIds);
  }

  method CollectListed(b: BuildEvidence) returns (listed: set<string>)
    ensures forall id :: id in listed <==> ListedStale(b, id)
  {
    listed := {};
    for k := 0 to |b.claimsStale|
      invariant forall id :: id in listed <==> id != "" && exists j :: 0 <= j < k && Trim(b.claimsStale[j]) == id
    {
      if Trim(b.claimsStale[k]) != "" {
        listed := listed + {Trim(b.claimsStale[k])};
      }
    }
  }

  /** An item reduced to the id it stands for, possibly none, and whether it is stale. */
  datatype Reading = Reading(id: string, stale: bool)

  ghost function Readings(c: Context, items: seq<Item>): (r: seq<Reading>)
    ensures |r| == |items|
    ensures forall k :: 0 <= k < |r| ==> r[k] == Reading(ClaimOf(c, items[k]), ItemStale(c, items[k]))
  {
    seq(|items|, k requires 0 <= k < |items| => Reading(ClaimOf(c, items[k]), ItemStale(c, items[k])))
  }

  datatype Split = Split(observed: set<string>, stale: set<string>)

  ghost function Parted(readings: seq<Reading>): Split
  {
    if readings == [] then Split({}, {})
    else
      var front, last := Parted(readings[..|readings| - 1]), readings[|readings| - 1];
      if last.id == "" then front
      else if last.stale then front.(stale := front.stale + {last.id})
      else front.(observed := front.observed + {last.id})
  }

  lemma {:induction false} PartedMeans(readings: seq<Reading>, id: string)
    ensures id in Parted(readings).observed <==> id != "" && Reading(id, false) in readings
    ensures id in Parted(readings).stale <==> id != "" && Reading(id, true) in readings
  {
    if readings != [] {
      var front, last := readings[..|readings| - 1], readings[|readings| - 1];
      PartedMeans(front, id);
      assert readings == front + [last];
    }
  }

  lemma ReadingsMean(c: Context, items: seq<Item>, id: string)
    requires id != ""
    ensures Reading(id, false) in Readings(c, items) <==> SomeFresh(c, items, id)
    ensures Reading(id, true) in Readings(c, items) <==> SomeStale(c, items, id)
  {
  }

  method PartItems(c: Context, items: seq<Item>) returns (observed: set<string>, stale: set<string>)
    ensures forall id :: id in observed <==> SomeFresh(c, items, id)
    ensures forall id :: id in stale <==> SomeStale(c, items, id)
  {
    observed, stale := {}, {};
    ghost var readings := Readings(c, items);
    for k := 0 to |items|
      invariant Split(observed, stale) == Parted(readings[..k])
    {
      assert readings[..k + 1][..k] == readings[..k];
      var id := ClaimOf(c, items[k]);
      if id == "" {
        continue;
      }
      if ItemStale(c, items[k]) {
        stale := stale + {id};
      } else {
        observed := observed + {id};
      }
    }
    assert readings[..|items|] == readings;
    forall id
      ensures id in observed <==> SomeFresh(c, items, id)
      ensures id in stale <==> SomeStale(c, items, id)
    {
      PartedMeans(readings, id);
      if id != "" {
        ReadingsMean(c, items, id);
      }
    }
  }

  /** The meaning leaves one answer, order included, and its two lists share no id. */
  lemma ExtractionIsDetermined(c: Context, doc: Option<SessionDocument>, v: Verified, w: Verified)
    requires IsExtraction(c, doc, v) && IsExtraction(c, doc, w)
    ensures v == w && forall id <- v.observed :: id !in v.stale
  {
    if Evidence(doc).Some? {
      AscendingIsUnique(v.observed, w.observed);
      AscendingIsUnique(v.stale, w.stale);
    }
  }

  ghost predicate SameMembers<T(!new)>(a: seq<T>, b: seq<T>)
  {
    forall x :: x in a <==> x in b
  }

  /** Two documents with the same build evidence, up to order and repetition. */
  ghost predicate SameEvidence(a: Option<BuildEvidence>, b: Option<BuildEvidence>)
  {
    match (a, b)
    case (None, None) => true
    case (Some(x), Some(y)) => SameMembers(x.items, y.items) && SameMembers(x.claimsStale, y.claimsStale)
    case _ => false
  }

  lemma FreshFromMembers(c: Context, a: seq<Item>, b: seq<Item>, id: string)
    requires forall x <- a :: x in b
    ensures SomeFresh(c, a, id) ==> SomeFresh(c, b, id)
    ensures SomeStale(c, a, id) ==> SomeStale(c, b, id)
  {
    if SomeFresh(c, a, id) {
      var k :| 0 <= k < |a| && Claims(c, a[k], id) && !ItemStale(c, a[k]);
      assert a[k] in b;
    }
    if SomeStale(c, a, id) {
      var k :| 0 <= k < |a| && Claims(c, a[k], id) && ItemStale(c, a[k]);
      assert a[k] in b;
    }
  }

  lemma ListedFromMembers(a: BuildEvidence, b: BuildEvidence, id: string)
    requires forall x <- a.claimsStale :: x in b.claimsStale
    ensures ListedStale(a, id) ==> ListedStale(b, id)
  {
    if ListedStale(a, id) {
      var k :| 0 <= k < |a.claimsStale| && Trim(a.claimsStale[k]) == id;
      assert a.claimsStale[k] in b.claimsStale;
    }
  }

  /** Neither order nor repetition of items or of listed claims matters, nor where in the document they are found. */
  lemma OrderDoesNotMatter(c: Context, d: Option<SessionDocument>, e: Option<SessionDocument>, v: Verified, w: Verified)
    requires SameEvidence(Evidence(d), Evidence(e))
    requires IsExtraction(c, d, v) && IsExtraction(c, e, w)
    ensures v == w
  {
    if Evidence(d).Some? {
      var a, b := Evidence(d).value, Evidence(e).value;
      forall id
        ensures SomeFresh(c, a.items, id) <==> SomeFresh(c, b.items, id)
        ensures SomeStale(c, a.items, id) <==> SomeStale(c, b.items, id)
        ensures ListedStale(a, id) <==> ListedStale(b, id)
      {
        FreshFromMembers(c, a.items, b.items, id);
        FreshFromMembers(c, b.items, a.items, id);
        ListedFromMembers(a, b, id);
        ListedFromMembers(b, a, id);
      }
      AscendingIsUnique(v.observed, w.observed);
      AscendingIsUnique(v.stale, w.stale);
    }
  }

  /** As time passes ids only move from observed to stale; together they stay the same. */
  lemma TimeOnlyMovesIds(c: Context, later: int, doc: Option<SessionDocument>, v: Verified, w: Verified)
    requires c.now <= later
    requires IsExtraction(c, doc, v) && IsExtraction(c.(now := later), doc, w)
    ensures forall id <- w.observed :: id in v.observed
    ensures forall id :: id in w.observed || id in w.stale <==> id in v.observed || id in v.stale
  {
    if Evidence(doc).Some? {
      forall id
        ensures id in w.observed ==> id in v.observed
        ensures id in w.observed || id in w.stale <==> id in v.observed || id in v.stale
      {
        FreshEarlier(c, later, Evidence(doc).value.items, id);
      }
    }
  }

  lemma FreshEarlier(c: Context, later: int, items: seq<Item>, id: string)
    requires c.now <= later
    ensures SomeFresh(c.(now := later), items, id) ==> SomeFresh(c, items, id)
    ensures SomeFresh(c.(now := later), items, id) || SomeStale(c.(now := later), items, id) <==>
            SomeFresh(c, items, id) || SomeStale(c, items, id)
  {
    var d := c.(now := later);
    assert forall i :: Claims(c, i, id) <==> Claims(d, i, id);
    forall k | 0 <= k < |items| && Claims(c, items[k], id)
      ensures ItemStale(c, items[k]) ==> ItemStale(d, items[k])
      ensures SomeFresh(c, items, id) || SomeStale(c, items, id)
      ensures SomeFresh(d, items, id) || SomeStale(d, items, id)
    {
      assert items[k].Item?;
      StalenessLasts(c.host, items[k].timing, c.now, later);
      assert ItemStale(c, items[k]) || !ItemStale(c, items[k]);
      assert ItemStale(d, items[k]) || !ItemStale(d, items[k]);
    }
  }

  // ---------------------------------------------------------------------
  // Items, spelled out
  // ---------------------------------------------------------------------

  /** The time to live in seconds: as given unless negative, else nothing for what must be live, else a day. */
  lemma TtlMeans(h: Host, t: Timing, name: string)
    requires name == if t.class_.Some? then Lower(h, Strip(t.class_.value)) else "gate_evidence"
    ensures t.ttl.Some? && t.ttl.value >= 0 ==> TtlSeconds(h, t) == t.ttl.value
    ensures t.ttl.None? || t.ttl.value < 0 ==>
              TtlSeconds(h, t) == if name == "identity_signal" || name == "preflight_probe" then 0 else 24 * 60 * 60
  {
    if t.class_.None? {
      GateIsNotLive(h);
    }
  }

  lemma GateIsNotLive(h: Host)
    ensures var name := Lower(h, Strip("gate_evidence")); name != "identity_signal" && name != "preflight_probe"
  {
    var gate := "gate_evidence";
    assert !IsSpace(gate[0]) && !IsSpace(gate[|gate| - 1]);
    StripTrims(gate);
    MapCharsFixed(c => LowerChar(h, c), gate);
  }

  /** An item passes when it is verified or its result is one of four words, in any case and spacing. */
  lemma PassingMeans(c: Context, i: Item, result: string)
    requires i.Item? && result == Lower(c.host, Strip(i.result))
    ensures Passes(c, i) <==> i.verified || result in {"pass", "passed", "ok", "success"}
  {
  }

  ghost predicate Given(o: Option<string>)
  {
    o.Some? && !AllSpace(o.value)
  }

  lemma GivenMeans(o: Option<string>)
    ensures Trim(o) != "" <==> Given(o)
  {
    if o.Some? {
      BlankMeans(o.value);
    }
  }

  /** A passing item stands for its evidence id, else its claim id, else its canonical label; others for nothing. */
  lemma ClaimMeans(c: Context, i: Item)
    requires i.Item?
    ensures !Passes(c, i) ==> ClaimOf(c, i) == ""
    ensures Passes(c, i) && Given(i.evidenceId) ==> ClaimOf(c, i) == Strip(i.evidenceId.value)
    ensures Passes(c, i) && !Given(i.evidenceId) && Given(i.claimId) ==> ClaimOf(c, i) == Strip(i.claimId.value)
    ensures Passes(c, i) && !Given(i.evidenceId) && !Given(i.claimId) ==>
              ClaimOf(c, i) == if Given(i.labelText) then c.canonical(i.labelText.value) else ""
  {
    GivenMeans(i.evidenceId);
    GivenMeans(i.claimId);
    GivenMeans(i.labelText);
  }

  /** A session-state mapping hides the document's own evidence, even when it has none itself. */
  lemma EvidenceMeans(inner: Option<BuildEvidence>, own: Option<BuildEvidence>)
    ensures Evidence(None) == None
    ensures Evidence(Some(SessionDocument(Some(inner), own))) == inner
    ensures Evidence(Some(SessionDocument(None, own))) == own
  {
  }
}
