/** Phase output policies: a replaceable loader, a cache of the loaded list, a cache of resolved policies. */
module PhasePolicies {
  import opened Options
  import opened PyText
  import opened Casing

  // ---------------------------------------------------------------------
  // Phase entries and policies
  // ---------------------------------------------------------------------

  datatype RawItems = NoItems | Items(items: seq<string>) | NotIterable

  datatype RawCount = NoCount | Count(n: int) | NotANumber

  datatype RawDiscipline =
    | NoDiscipline
    | NotADict
    | RawDiscipline(firstIsDraft: bool, draftNotReady: bool, reviews: RawCount)

  datatype RawPolicy = RawPolicy(allowed: RawItems, forbidden: RawItems, discipline: RawDiscipline)

  /** An element of the phases list; `policy` is `None` when absent or not a mapping. */
  datatype Entry = NotAMapping | Entry(token: string, policy: Option<RawPolicy>)

  datatype Policy = Policy(
    allowed: seq<string>,
    forbidden: seq<string>,
    firstIsDraft: bool,
    draftNotReady: bool,
    reviews: int)

  datatype Failure = LoaderRaised(what: string) | BadPolicy

  type Answer = Result<Option<Policy>, Failure>

  function StripItems(raw: RawItems): Result<seq<string>, Failure>
  {
    match raw
    case NoItems => Ok([])
    case Items(items) => Ok(StripEach(items))
    case NotIterable => Raised(BadPolicy)
  }

  function StripEach(items: seq<string>): (r: seq<string>)
    ensures |r| == |items| && forall i :: 0 <= i < |r| ==> r[i] == Strip(items[i])
  {
    if items == [] then [] else [Strip(items[0])] + StripEach(items[1..])
  }

  function ParsePolicy(raw: RawPolicy): Result<Policy, Failure>
  {
    var d := raw.discipline;
    var allowed, forbidden := StripItems(raw.allowed), StripItems(raw.forbidden);
    if d.NotADict? || (d.RawDiscipline? && d.reviews.NotANumber?) || allowed.Raised? || forbidden.Raised? then
      Raised(BadPolicy)
    else if d.NoDiscipline? then
      Ok(Policy(allowed.value, forbidden.value, false, false, 0))
    else
      var reviews := if d.reviews.Count? then d.reviews.n else 0;
      Ok(Policy(allowed.value, forbidden.value, d.firstIsDraft, d.draftNotReady, reviews))
  }

  predicate Defines(e: Entry, token: string)
  {
    e.Entry? && token != "" && Strip(e.token) == token && e.policy.Some?
  }

  // ---------------------------------------------------------------------
  // Resolution without any cache
  // ---------------------------------------------------------------------

  /** The policy of the last entry for `token`. */
  function LastMatch(phases: seq<Entry>, token: string): Option<RawPolicy>
  {
    if phases == [] then None
    else
      var last := phases[|phases| - 1];
      if Defines(last, token) then last.policy else LastMatch(phases[..|phases| - 1], token)
  }

  lemma {:induction false} NoMatch(phases: seq<Entry>, token: string)
    ensures LastMatch(phases, token).None? <==> forall i :: 0 <= i < |phases| ==> !Defines(phases[i], token)
  {
    if phases != [] {
      var front := phases[..|phases| - 1];
      NoMatch(front, token);
      assert forall i :: 0 <= i < |front| ==> front[i] == phases[i];
    }
  }

  lemma {:induction false} MatchAt(phases: seq<Entry>, token: string) returns (i: nat)
    requires LastMatch(phases, token).Some?
    ensures i < |phases| && Defines(phases[i], token) && phases[i].policy == LastMatch(phases, token)
    ensures forall j :: i < j < |phases| ==> !Defines(phases[j], token)
  {
    if Defines(phases[|phases| - 1], token) {
      i := |phases| - 1;
    } else {
      var front := phases[..|phases| - 1];
      i := MatchAt(front, token);
      assert forall j :: 0 <= j < |front| ==> front[j] == phases[j];
    }
  }

  /** The block found is that of the last entry for the token, and there is none only if no entry defines it. */
  lemma LastMatchIsLast(phases: seq<Entry>, token: string)
    ensures LastMatch(phases, token).None? <==> forall i :: 0 <= i < |phases| ==> !Defines(phases[i], token)
    ensures LastMatch(phases, token).Some? ==>
              exists i :: && 0 <= i < |phases| && Defines(phases[i], token)
                          && phases[i].policy == LastMatch(phases, token)
                          && forall j :: i < j < |phases| ==> !Defines(phases[j], token)
  {
    NoMatch(phases, token);
    if LastMatch(phases, token).Some? {
      var i := MatchAt(phases, token);
    }
  }

  function DigitRun(h: Host, s: string): (n: nat)
    ensures n <= |s| && (forall k :: 0 <= k < n ==> IsDigit(h, s[k])) && (n < |s| ==> !IsDigit(h, s[n]))
  {
    if s != "" && IsDigit(h, s[0]) then 1 + DigitRun(h, s[1..]) else 0
  }

  /** The number before the first dot, for tokens such as `5.3`. */
  function ParentToken(h: Host, token: string): (r: Option<string>)
    ensures forall p: string ::
              r == Some(p) <==>
              && p != "" && (forall c <- p :: IsDigit(h, c))
              && |p| < |token| && token[..|p|] == p && token[|p|] == '.'
  {
    var n := DigitRun(h, token);
    if 0 < n < |token| && token[n] == '.' then Some(token[..n]) else None
  }

  /** What a token resolves to: its own policy, else its numeric parent's, else none. */
  function Uncached(h: Host, phases: seq<Entry>, token: string): Answer
  {
    var own, parent := LastMatch(phases, token), ParentToken(h, token);
    var found := if own.None? && parent.Some? then LastMatch(phases, parent.value) else own;
    if found.None? then Ok(None)
    else
      match ParsePolicy(found.value)
      case Ok(policy) => Ok(Some(policy))
      case Raised(e) => Raised(e)
  }

  // What an answer says, read off the phase entries.

  /** `got` are the items of a block, each stripped; an absent list is empty. */
  ghost predicate ItemsRead(raw: RawItems, got: seq<string>)
  {
    match raw
    case NoItems => got == []
    case Items(items) => |got| == |items| && forall i :: 0 <= i < |items| ==> got[i] == Strip(items[i])
    case NotIterable => false
  }

  ghost predicate CountRead(raw: RawCount, n: int)
  {
    match raw
    case NoCount => n == 0
    case Count(k) => n == k
    case NotANumber => false
  }

  ghost predicate IsReadFrom(p: Policy, block: RawPolicy)
  {
    && ItemsRead(block.allowed, p.allowed)
    && ItemsRead(block.forbidden, p.forbidden)
    && match block.discipline
       case NoDiscipline => !p.firstIsDraft && !p.draftNotReady && p.reviews == 0
       case RawDiscipline(first, notReady, reviews) =>
         p.firstIsDraft == first && p.draftNotReady == notReady && CountRead(reviews, p.reviews)
       case NotADict => false
  }

  /** A block that cannot be read: a list that is none, a discipline that is no mapping, a count that is no number. */
  ghost predicate Unusable(block: RawPolicy)
  {
    || block.allowed.NotIterable? || block.forbidden.NotIterable? || block.discipline.NotADict?
    || (block.discipline.RawDiscipline? && block.discipline.reviews.NotANumber?)
  }

  lemma BlockIsRead(block: RawPolicy)
    ensures ParsePolicy(block).Raised? <==> Unusable(block)
    ensures ParsePolicy(block).Ok? ==> IsReadFrom(ParsePolicy(block).value, block)
  {
  }

  ghost predicate DefinedLast(phases: seq<Entry>, token: string, i: nat)
  {
    i < |phases| && Defines(phases[i], token) && forall j :: i < j < |phases| ==> !Defines(phases[j], token)
  }

  ghost predicate Undefined(phases: seq<Entry>, token: string)
  {
    forall i :: 0 <= i < |phases| ==> !Defines(phases[i], token)
  }

  /** Entry `i` supplies the policy: the last for the token, else the last for its numeric parent. */
  ghost predicate Supplies(h: Host, phases: seq<Entry>, token: string, i: nat)
  {
    || DefinedLast(phases, token, i)
    || (Undefined(phases, token) && exists parent :: ParentToken(h, token) == Some(parent) && DefinedLast(phases, parent, i))
  }

  ghost predicate AnsweredBy(h: Host, phases: seq<Entry>, token: string, p: Policy)
  {
    exists i: nat :: Supplies(h, phases, token, i) && IsReadFrom(p, phases[i].policy.value)
  }

  ghost predicate NoneFor(h: Host, phases: seq<Entry>, token: string)
  {
    Undefined(phases, token) && forall parent :: ParentToken(h, token) == Some(parent) ==> Undefined(phases, parent)
  }

  lemma Supplier(h: Host, phases: seq<Entry>, token: string) returns (i: nat)
    requires !NoneFor(h, phases, token)
    ensures Supplies(h, phases, token, i)
    ensures var block := phases[i].policy.value;
            Uncached(h, phases, token) ==
              match ParsePolicy(block) { case Ok(p) => Ok(Some(p)) case Raised(e) => Raised(e) }
  {
    NoMatch(phases, token);
    if Undefined(phases, token) {
      var parent := ParentToken(h, token).value;
      NoMatch(phases, parent);
      i := MatchAt(phases, parent);
    } else {
      i := MatchAt(phases, token);
    }
  }

  /** A policy answered is read from the supplying entry, field by field; no answer means no entry for token or parent. */
  lemma AnswerMeans(h: Host, phases: seq<Entry>, token: string, p: Policy)
    ensures Uncached(h, phases, token) == Ok(Some(p)) ==> AnsweredBy(h, phases, token, p)
    ensures Uncached(h, phases, token) == Ok(None) <==> NoneFor(h, phases, token)
    ensures Uncached(h, phases, token).Raised? <==>
              exists i: nat :: Supplies(h, phases, token, i) && Unusable(phases[i].policy.value)
  {
    if NoneFor(h, phases, token) {
      NoMatch(phases, token);
      if ParentToken(h, token).Some? {
        NoMatch(phases, ParentToken(h, token).value);
      }
    } else {
      var i := Supplier(h, phases, token);
      BlockIsRead(phases[i].policy.value);
      forall k: nat | Supplies(h, phases, token, k)
        ensures k == i
      {
        SuppliesOnce(h, phases, token, i, k);
      }
    }
  }

  lemma SuppliesOnce(h: Host, phases: seq<Entry>, token: string, i: nat, k: nat)
    requires Supplies(h, phases, token, i) && Supplies(h, phases, token, k)
    ensures i == k
  {
  }

  // ---------------------------------------------------------------------
  // The abstract machine: a loader and the list held since the last invalidation
  // ---------------------------------------------------------------------

  /** A loader is known by a number; what a call to it does depends on the world at that moment. */
  type Loader = nat

  /** `auto` is the loader the infrastructure layer would register, when it can be imported. */
  datatype World = World(call: Loader -> Result<seq<Entry>, Failure>, auto: Option<Loader>)

  datatype Held = Held(loader: Option<Loader>, phases: Option<seq<Entry>>)

  function LoaderIn(s: Held, w: World): Option<Loader>
  {
    if s.loader.Some? then s.loader else w.auto
  }

  /** What holding the list costs: nothing, or one call to the loader. */
  function Load(s: Held, w: World): Result<seq<Entry>, Failure>
  {
    if s.phases.Some? then Ok(s.phases.value)
    else if LoaderIn(s, w).None? then Ok([])
    else w.call(LoaderIn(s, w).value)
  }

  function AfterLoad(s: Held, w: World): Held
  {
    if s.phases.Some? then s
    else Held(LoaderIn(s, w), if Load(s, w).Ok? then Some(Load(s, w).value) else None)
  }

  function AnswerOf(h: Host, s: Held, w: World, token: string): Answer
  {
    match Load(s, w)
    case Ok(phases) => Uncached(h, phases, token)
    case Raised(e) => Raised(e)
  }

  datatype Op = Register(loader: Loader) | Resolve(world: World, token: string) | Clear

  function After(s: Held, op: Op): Held
  {
    match op
    case Register(l) => Held(Some(l), None)
    case Resolve(w, _) => AfterLoad(s, w)
    case Clear => Held(s.loader, None)
  }

  function Reply(h: Host, s: Held, op: Op): Option<Answer>
  {
    match op
    case Resolve(w, token) => Some(AnswerOf(h, s, w, token))
    case _ => None
  }

  ghost function AfterAll(s: Held, ops: seq<Op>): Held
  {
    if ops == [] then s else After(AfterAll(s, ops[..|ops| - 1]), ops[|ops| - 1])
  }

  ghost function Replies(h: Host, s: Held, ops: seq<Op>): (r: seq<Option<Answer>>)
    ensures |r| == |ops|
  {
    if ops == [] then []
    else
      var front := ops[..|ops| - 1];
      Replies(h, s, front) + [Reply(h, AfterAll(s, front), ops[|ops| - 1])]
  }

  // ---------------------------------------------------------------------
  // The registry with its caches
  // ---------------------------------------------------------------------

  class Registry {
    const host: Host
    var loader: Option<Loader>
    var raw: Option<seq<Entry>>
    var cache: map<string, Option<Policy>>

    /** Every cached policy, and every cached absence, is what uncached resolution says. */
    ghost predicate Valid()
      reads this
    {
      && (raw.None? ==> cache == map[])
      && (raw.Some? ==> forall t <- cache :: Uncached(host, raw.value, t) == Ok(cache[t]))
    }

    ghost function State(): Held
      reads this
    {
      Held(loader, raw)
    }

    constructor (h: Host)
      ensures Valid() && host == h && State() == Held(None, None)
    {
      host := h;
      loader, raw, cache := None, None, map[];
    }

    method SetLoader(l: Loader)
      modifies this
      ensures Valid() && State() == Held(Some(l), None)
    {
      loader := Some(l);
      cache := map[];
      raw := None;
    }

    method ClearCaches()
      modifies this
      ensures Valid() && State() == Held(old(loader), None)
    {
      cache := map[];
      raw := None;
    }

    method LoadRaw(w: World) returns (r: Result<seq<Entry>, Failure>)
      requires Valid()
      modifies this
      ensures Valid() && State() == AfterLoad(old(State()), w)
      ensures r == Load(old(State()), w)
      ensures r.Ok? ==> raw == Some(r.value)
      ensures old(raw).Some? ==> cache == old(cache)
      ensures old(raw).None? ==> cache == map[]
    {
      if raw.Some? {
        return Ok(raw.value);
      }
      if loader.None? && w.auto.Some? {
        SetLoader(w.auto.value);
      }
      if loader.None? {
        raw := Some([]);
        return Ok([]);
      }
      r := w.call(loader.value);
      if r.Ok? {
        raw := Some(r.value);
      }
    }

    /** The dictionary from token to policy block, built front to back so that later entries win. */
    method PolicyTable(phases: seq<Entry>) returns (table: map<string, RawPolicy>)
      ensures forall t: string :: t in table <==> LastMatch(phases, t).Some?
      ensures forall t <- table :: LastMatch(phases, t) == Some(table[t])
    {
      table := map[];
      var i := 0;
      while i < |phases|
        invariant 0 <= i <= |phases|
        invariant forall t: string :: t in table <==> LastMatch(phases[..i], t).Some?
        invariant forall t <- table :: LastMatch(phases[..i], t) == Some(table[t])
      {
        assert phases[..i + 1][..i] == phases[..i];
        if phases[i].Entry? {
          var token := Strip(phases[i].token);
          if token != "" && phases[i].policy.Some? {
            table := table[token := phases[i].policy.value];
          }
        }
        i := i + 1;
      }
      assert phases[..i] == phases;
    }

    /** The answer, the list now held and the caches kept valid; an answer given stays cached. */
    method ResolvePolicy(w: World, token: string) returns (r: Answer)
      requires Valid()
      modifies this
      ensures Valid() && State() == AfterLoad(old(State()), w)
      ensures r == AnswerOf(host, old(State()), w, token)
      ensures r.Ok? ==> raw.Some?
      ensures r.Ok? && r.value.Some? ==> AnsweredBy(host, raw.value, token, r.value.value)
      ensures r.Ok? && r.value.None? ==> NoneFor(host, raw.value, token)
      ensures r.Ok? ==> token in cache && cache[token] == r.value
      ensures forall t <- old(cache) :: t in cache && cache[t] == old(cache)[t]
      ensures cache.Keys <= old(cache).Keys + {token}
    {
      r := LookUp(w, token);
      if r.Ok? {
        AnswerMeans(host, raw.value, token, if r.value.Some? then r.value.value else Policy([], [], false, false, 0));
      }
    }

    /** The cache, the list, the table, the parent: in this order. */
    method LookUp(w: World, token: string) returns (r: Answer)
      requires Valid()
      modifies this
      ensures Valid() && State() == AfterLoad(old(State()), w)
      ensures r == AnswerOf(host, old(State()), w, token)
      ensures r.Ok? ==> token in cache && cache[token] == r.value
      ensures forall t <- old(cache) :: t in cache && cache[t] == old(cache)[t]
      ensures cache.Keys <= old(cache).Keys + {token}
    {
      if token in cache {
        return Ok(cache[token]);
      }
      var phases := LoadRaw(w);
      if phases.Raised? {
        return Raised(phases.error);
      }
      var table := PolicyTable(phases.value);
      if token in table {
        r := Remember(token, table[token]);
        return;
      }
      var parent := ParentToken(host, token);
      if parent.Some? && parent.value in table {
        r := Remember(token, table[parent.value]);
        return;
      }
      cache := cache[token := None];
      r := Ok(None);
    }

    /** Parses and caches; a block that does not parse raises and caches nothing. */
    method Remember(token: string, block: RawPolicy) returns (r: Answer)
      modifies this`cache
      ensures ParsePolicy(block).Ok? ==>
                r == Ok(Some(ParsePolicy(block).value)) && cache == old(cache)[token := r.value]
      ensures ParsePolicy(block).Raised? ==> r == Raised(ParsePolicy(block).error) && cache == old(cache)
    {
      var policy := ParsePolicy(block);
      if policy.Raised? {
        return Raised(policy.error);
      }
      cache := cache[token := Some(policy.value)];
      r := Ok(Some(policy.value));
    }

    /** Any sequence of registrations, resolves and clears answers as the machine without a policy cache does. */
    method Run(ops: seq<Op>) returns (replies: seq<Option<Answer>>)
      requires Valid()
      modifies this
      ensures Valid() && State() == AfterAll(old(State()), ops)
      ensures replies == Replies(host, old(State()), ops)
    {
      replies := [];
      for i := 0 to |ops|
        invariant Valid() && State() == AfterAll(old(State()), ops[..i])
        invariant replies == Replies(host, old(State()), ops[..i])
      {
        assert ops[..i + 1][..i] == ops[..i];
        match ops[i]
        case Register(l) =>
          SetLoader(l);
          replies := replies + [None];
        case Resolve(w, token) =>
          var r := ResolvePolicy(w, token);
          replies := replies + [Some(r)];
        case Clear =>
          ClearCaches();
          replies := replies + [None];
      }
      assert ops[..|ops|] == ops;
    }
  }

  // ---------------------------------------------------------------------
  // What the answers of a run mean
  // ---------------------------------------------------------------------

  ghost predicate AllResolves(ops: seq<Op>)
  {
    forall i :: 0 <= i < |ops| ==> ops[i].Resolve?
  }

  lemma {:induction false} ReplyAt(h: Host, s: Held, ops: seq<Op>, i: nat)
    requires i < |ops|
    ensures Replies(h, s, ops)[i] == Reply(h, AfterAll(s, ops[..i]), ops[i])
  {
    var front := ops[..|ops| - 1];
    if i < |front| {
      ReplyAt(h, s, front, i);
      assert front[..i] == ops[..i];
    }
  }

  lemma {:induction false} HeldListStays(s: Held, ops: seq<Op>)
    requires AllResolves(ops) && s.phases.Some?
    ensures AfterAll(s, ops) == s
  {
    if ops != [] {
      HeldListStays(s, ops[..|ops| - 1]);
    }
  }

  /** `list` is what was loaded at step `j`, the first successful load since the last invalidation before step `i`. */
  ghost predicate LoadedAt(s: Held, ops: seq<Op>, j: nat, i: nat, list: seq<Entry>)
  {
    && j <= i < |ops|
    && (forall k :: j <= k <= i ==> ops[k].Resolve?)
    && AfterAll(s, ops[..j]).phases.None?
    && Load(AfterAll(s, ops[..j]), ops[j].world) == Ok(list)
  }

  /**
   Every resolve in a run that starts with nothing held is answered from one
   list: the one loaded at the first successful load since the last
   registration or clear. When there was no successful load, the answer is the
   loader's own error.
   */
  lemma EveryAnswerIsUncached(h: Host, s: Held, ops: seq<Op>, i: nat)
    requires s.phases.None? && i < |ops| && ops[i].Resolve?
    ensures (exists j: nat, list :: && LoadedAt(s, ops, j, i, list)
                                    && Replies(h, s, ops)[i] == Some(Uncached(h, list, ops[i].token)))
         || (exists l: Loader :: && AfterAll(s, ops[..i + 1]) == Held(Some(l), None)
                                 && ops[i].world.call(l).Raised?
                                 && Replies(h, s, ops)[i] == Some(Raised(ops[i].world.call(l).error)))
  {
    ReplyAt(h, s, ops, i);
    if Load(AfterAll(s, ops[..i]), ops[i].world).Ok? {
      var j := FirstLoad(s, ops, i);
    } else {
      var l := FailedLoad(s, ops, i);
    }
  }

  lemma FirstLoad(s: Held, ops: seq<Op>, i: nat) returns (j: nat)
    requires s.phases.None? && i < |ops| && ops[i].Resolve?
    requires Load(AfterAll(s, ops[..i]), ops[i].world).Ok?
    ensures LoadedAt(s, ops, j, i, Load(AfterAll(s, ops[..i]), ops[i].world).value)
  {
    if AfterAll(s, ops[..i]).phases.Some? {
      j := WhenLoaded(s, ops, i);
    } else {
      j := i;
    }
  }

  lemma FailedLoad(s: Held, ops: seq<Op>, i: nat) returns (l: Loader)
    requires i < |ops| && ops[i].Resolve?
    requires Load(AfterAll(s, ops[..i]), ops[i].world).Raised?
    ensures AfterAll(s, ops[..i + 1]) == Held(Some(l), None)
    ensures ops[i].world.call(l) == Load(AfterAll(s, ops[..i]), ops[i].world)
  {
    assert ops[..i + 1][..i] == ops[..i];
    l := LoaderIn(AfterAll(s, ops[..i]), ops[i].world).value;
  }

  lemma {:induction false} WhenLoaded(s: Held, ops: seq<Op>, i: nat) returns (j: nat)
    requires s.phases.None? && i < |ops| && ops[i].Resolve?
    requires AfterAll(s, ops[..i]).phases.Some?
    ensures j < i && LoadedAt(s, ops, j, i, AfterAll(s, ops[..i]).phases.value)
  {
    var held := AfterAll(s, ops[..i]);
    assert ops[..i][..i - 1] == ops[..i - 1];
    if AfterAll(s, ops[..i - 1]).phases.Some? {
      j := WhenLoaded(s, ops, i - 1);
    } else {
      j := i - 1;
    }
  }

  /** An answer never mixes lists: between invalidations, once a list is held the world outside no longer matters. */
  lemma AnswersAgreeWhileHeld(h: Host, s: Held, ops: seq<Op>, i: nat)
    requires AllResolves(ops) && s.phases.Some? && i < |ops|
    ensures Replies(h, s, ops)[i] == Some(Uncached(h, s.phases.value, ops[i].token))
  {
    ReplyAt(h, s, ops, i);
    HeldListStays(s, ops[..i]);
  }

  /** After a registration the next resolve asks the new loader, whatever was cached before. */
  lemma RegistrationTakesEffect(h: Host, s: Held, before: seq<Op>, l: Loader, w: World, token: string)
    ensures var ops := before + [Register(l), Resolve(w, token)];
            Replies(h, s, ops)[|before| + 1] ==
              Some(match w.call(l) { case Ok(list) => Uncached(h, list, token) case Raised(e) => Raised(e) })
  {
  }
}
