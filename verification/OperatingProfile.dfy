/** Operating profiles: solo < team < regulated, resolved from defaults, enforcement, request, floor and break-glass. */
module OperatingProfile {
  import opened Options
  import opened PyText
  import opened Casing

  datatype Profile = Solo | Team | Regulated

  datatype ProfileError =
    | UnknownProfile
    | MissingOperatingMode
    | UntrustedSource
    | BreakGlassInvalid
    | BreakGlassExpired
    | ForbiddenDownshift
    | FloorViolation
    | ProfileConflict

  function Rank(p: Profile): nat
  {
    match p
    case Solo => 1
    case Team => 2
    case Regulated => 3
  }

  predicate AtLeast(p: Profile, q: Profile)
  {
    Rank(p) >= Rank(q)
  }

  predicate IsDownshift(current: Profile, requested: Profile)
  {
    Rank(requested) < Rank(current)
  }

  /** `None` sets no bound. */
  predicate Covers(p: Profile, bound: Option<Profile>)
  {
    bound.Some? ==> AtLeast(p, bound.value)
  }

  // ---------------------------------------------------------------------
  // The variadic maximum
  // ---------------------------------------------------------------------

  /** A least upper bound of what is present: above everything, and itself among it. */
  ghost predicate IsJoin(modes: seq<Option<Profile>>, p: Profile)
  {
    Some(p) in modes && forall m <- modes :: Covers(p, m)
  }

  method MaxProfile(modes: seq<Option<Profile>>) returns (r: Result<Profile, ProfileError>)
    ensures r.Ok? ==> IsJoin(modes, r.value)
    ensures r.Raised? ==> r.error == MissingOperatingMode && forall m <- modes :: m.None?
  {
    var present := Present(modes);
    if present == [] {
      return Raised(MissingOperatingMode);
    }
    var winner := present[0];
    for i := 1 to |present|
      invariant winner in present
      invariant forall k :: 0 <= k < i ==> AtLeast(winner, present[k])
    {
      if Rank(present[i]) > Rank(winner) {
        winner := present[i];
      }
    }
    r := Ok(winner);
  }

  function Present(modes: seq<Option<Profile>>): (r: seq<Profile>)
    ensures forall p :: p in r <==> Some(p) in modes
    ensures r == [] <==> forall m <- modes :: m.None?
  {
    if modes == [] then []
    else if modes[0].None? then Present(modes[1..])
    else [modes[0].value] + Present(modes[1..])
  }

  /** The join depends on which profiles are present only: neither order nor repetition nor gaps matter. */
  lemma JoinIsPermutationInvariant(a: seq<Option<Profile>>, b: seq<Option<Profile>>, p: Profile, q: Profile)
    requires forall x: Profile :: Some(x) in a <==> Some(x) in b
    requires IsJoin(a, p) && IsJoin(b, q)
    ensures p == q
  {
    assert Covers(q, Some(p)) && Covers(p, Some(q));
  }

  /** Below every profile that is above all that is present. */
  lemma JoinIsLeast(modes: seq<Option<Profile>>, p: Profile, bound: Profile)
    requires IsJoin(modes, p) && forall m <- modes :: Covers(bound, m)
    ensures AtLeast(bound, p)
  {
  }

  // ---------------------------------------------------------------------
  // Names, enforcement and break-glass
  // ---------------------------------------------------------------------

  function Normalize(h: Host, mode: Option<string>): Option<Profile>
  {
    if mode.None? then None
    else
      var token := Lower(h, Strip(mode.value));
      if token == "solo" || token == "user" then Some(Solo)
      else if token == "team" || token == "pipeline" || token == "system" then Some(Team)
      else if token == "regulated" || token == "agents_strict" then Some(Regulated)
      else None
  }

  datatype EnforcementSource =
    | LocalRuntime
    | Ci
    | ProtectedPipeline
    | RegulatedPipeline
    | RepoPolicy
    | OrgPolicy
    | UnknownSource

  function NormalizeSource(h: Host, source: Option<string>): EnforcementSource
  {
    var token := if source.None? then "" else Lower(h, Strip(source.value));
    if token == "local" || token == "local-runtime" then LocalRuntime
    else if token == "ci" || token == "pipeline" then Ci
    else if token == "protected-pipeline" then ProtectedPipeline
    else if token == "regulated-pipeline" then RegulatedPipeline
    else if token == "repo-policy" then RepoPolicy
    else if token == "org-policy" then OrgPolicy
    else UnknownSource
  }

  datatype Signals = Signals(ci: bool, protectedPipeline: bool, regulatedPipeline: bool, repoPolicy: bool, orgPolicy: bool)

  predicate Trusted(source: EnforcementSource, s: Signals)
  {
    match source
    case Ci => s.ci
    case ProtectedPipeline => s.ci && s.protectedPipeline
    case RegulatedPipeline => s.ci && s.regulatedPipeline
    case RepoPolicy => s.repoPolicy
    case OrgPolicy => s.orgPolicy
    case _ => false
  }

  datatype BreakGlass = BreakGlass(
    reason: Option<string>,
    actor: Option<string>,
    rationale: Option<string>,
    scope: Option<string>,
    expiresAt: Option<string>,
    now: Option<string>)

  /** `instant` reads a timestamp. Without a reason there is no break-glass record, whatever else is filled in. */
  function GlassActive(instant: string -> Option<int>, g: BreakGlass): Result<bool, ProfileError>
  {
    if Trim(g.reason) == "" then Ok(false)
    else if Trim(g.actor) == "" || Trim(g.scope) == "" || Trim(g.rationale) == "" then Raised(BreakGlassInvalid)
    else if Trim(g.expiresAt) == "" || Trim(g.now) == "" then Raised(BreakGlassExpired)
    else
      var expiry, now := instant(Trim(g.expiresAt)), instant(Trim(g.now));
      if expiry.None? || now.None? || expiry.value <= now.value then Raised(BreakGlassExpired) else Ok(true)
  }

  // ---------------------------------------------------------------------
  // Resolution
  // ---------------------------------------------------------------------

  datatype Inputs = Inputs(
    requested: Option<string>,
    repo: Option<string>,
    init: Option<string>,
    enforced: Option<string>,
    source: Option<string>,
    signals: Option<Signals>,
    floor: Option<string>,
    glass: BreakGlass)

  datatype Resolution = Resolution(
    requested: Option<Profile>,
    repo: Profile,
    init: Profile,
    enforced: Option<Profile>,
    source: EnforcementSource,
    trusted: bool,
    resolved: Profile,
    floor: Option<Profile>,
    glassActive: bool)

  const NO_SIGNALS := Signals(false, false, false, false, false)

  /** A mode that is given, not empty, and names no profile. */
  predicate Unreadable(h: Host, mode: Option<string>)
  {
    mode.Some? && mode.value != "" && Normalize(h, mode).None?
  }

  predicate SourceTrusted(h: Host, i: Inputs)
  {
    Trusted(NormalizeSource(h, i.source), if i.signals.Some? then i.signals.value else NO_SIGNALS)
  }

  /** What the inputs say once read: `trusted` is the enforced profile if its source can be trusted. */
  datatype Modes = Modes(
    requested: Option<Profile>,
    repo: Option<Profile>,
    init: Option<Profile>,
    enforced: Option<Profile>,
    trusted: Option<Profile>,
    floor: Option<Profile>)

  function ReadModes(h: Host, i: Inputs): Modes
  {
    var enforced := Normalize(h, i.enforced);
    Modes(Normalize(h, i.requested), Normalize(h, i.repo), Normalize(h, i.init), enforced,
          if SourceTrusted(h, i) then enforced else None, Normalize(h, i.floor))
  }

  predicate AllReadable(h: Host, i: Inputs)
  {
    && !Unreadable(h, i.requested) && !Unreadable(h, i.repo) && !Unreadable(h, i.init)
    && !Unreadable(h, i.enforced) && !Unreadable(h, i.floor)
  }

  predicate HasDefault(m: Modes)
  {
    m.repo.Some? || m.init.Some?
  }

  function Or(a: Option<Profile>, b: Option<Profile>): Option<Profile>
  {
    if a.Some? then a else b
  }

  function Raise(p: Profile, o: Option<Profile>): Profile
  {
    if o.Some? && Rank(o.value) > Rank(p) then o.value else p
  }

  function Baseline(m: Modes): Profile
    requires HasDefault(m)
  {
    Raise(Or(m.repo, m.init).value, m.init)
  }

  predicate AsksDownshift(m: Modes)
    requires HasDefault(m)
  {
    m.requested.Some? && IsDownshift(Baseline(m), m.requested.value)
  }

  /** The join of baseline, trusted enforcement and request; under break-glass a lower request stands as it is. */
  function Effective(m: Modes, glassActive: bool): Profile
    requires HasDefault(m)
  {
    if glassActive && AsksDownshift(m) then m.requested.value
    else Raise(Raise(Baseline(m), m.trusted), m.requested)
  }

  /** The first rule broken, in the order the rules are applied. */
  function FirstProblem(readable: bool, m: Modes, glass: Result<bool, ProfileError>): Option<ProfileError>
  {
    if !readable then Some(UnknownProfile)
    else if !HasDefault(m) then Some(MissingOperatingMode)
    else if m.enforced.Some? && m.trusted.None? && Raise(Baseline(m), m.floor) == Regulated then Some(UntrustedSource)
    else if glass.Raised? then Some(glass.error)
    else if AsksDownshift(m) && !glass.value then Some(ForbiddenDownshift)
    else if !Covers(Effective(m, glass.value), m.floor) then Some(FloorViolation)
    else if !Covers(Effective(m, glass.value), m.trusted) then Some(ProfileConflict)
    else None
  }

  function Resolve(h: Host, instant: string -> Option<int>, i: Inputs): Result<Resolution, ProfileError>
  {
    var m, glass := ReadModes(h, i), GlassActive(instant, i.glass);
    var problem := FirstProblem(AllReadable(h, i), m, glass);
    if problem.Some? then Raised(problem.value)
    else
      Ok(Resolution(m.requested, Or(m.repo, m.init).value, Or(m.init, m.repo).value, m.trusted,
                    NormalizeSource(h, i.source), SourceTrusted(h, i), Effective(m, glass.value), m.floor, glass.value))
  }

  method ResolveProfile(h: Host, instant: string -> Option<int>, i: Inputs) returns (r: Result<Resolution, ProfileError>)
    ensures r == Resolve(h, instant, i)
  {
    var m := ReadModes(h, i);
    if !AllReadable(h, i) {
      return Raised(UnknownProfile);
    }
    var isTrusted := SourceTrusted(h, i);
    var glass := GlassActive(instant, i.glass);
    var resolved := ResolveModes(m, glass);
    if resolved.Raised? {
      return Raised(resolved.error);
    }
    r := Ok(Resolution(m.requested, Or(m.repo, m.init).value, Or(m.init, m.repo).value, m.trusted,
                       NormalizeSource(h, i.source), isTrusted, resolved.value, m.floor, glass.value));
  }

  /** The part of the resolution that decides: maxima, the break-glass exception, the closing checks. */
  method ResolveModes(m: Modes, glass: Result<bool, ProfileError>) returns (r: Result<Profile, ProfileError>)
    ensures var problem := FirstProblem(true, m, glass);
            if problem.Some? then r == Raised(problem.value) else r == Ok(Effective(m, glass.value))
  {
    if m.repo.None? && m.init.None? {
      return Raised(MissingOperatingMode);
    }
    if m.enforced.Some? && m.trusted.None? {
      var hardest := MaxProfile([m.repo, m.init, m.floor]);
      JoinOfThree(m.repo, m.init, m.floor, hardest);
      if hardest.value == Regulated {
        return Raised(UntrustedSource);
      }
    }
    var base := MaxProfile([m.repo, m.init]);
    JoinOfTwo(m.repo, m.init, base);
    if glass.Raised? {
      return Raised(glass.error);
    }
    var joined := MaxProfile([Some(base.value), m.trusted, m.requested]);
    JoinOfThree(Some(base.value), m.trusted, m.requested, joined);
    var resolved := joined.value;
    if glass.value && m.requested.Some? && IsDownshift(base.value, m.requested.value) {
      resolved := m.requested.value;
    }
    if m.requested.Some? && IsDownshift(base.value, m.requested.value) && !glass.value {
      return Raised(ForbiddenDownshift);
    }
    if m.floor.Some? && !Covers(resolved, m.floor) {
      return Raised(FloorViolation);
    }
    if m.trusted.Some? && IsDownshift(m.trusted.value, resolved) {
      return Raised(ProfileConflict);
    }
    r := Ok(resolved);
  }

  ghost predicate IsMax(modes: seq<Option<Profile>>, r: Result<Profile, ProfileError>)
  {
    match r
    case Ok(p) => IsJoin(modes, p)
    case Raised(e) => e == MissingOperatingMode && forall m <- modes :: m.None?
  }

  lemma JoinOfTwo(a: Option<Profile>, b: Option<Profile>, r: Result<Profile, ProfileError>)
    requires (a.Some? || b.Some?) && IsMax([a, b], r)
    ensures r == Ok(Raise(Or(a, b).value, b))
  {
    assert a in [a, b] && b in [a, b];
  }

  lemma JoinOfThree(a: Option<Profile>, b: Option<Profile>, c: Option<Profile>, r: Result<Profile, ProfileError>)
    requires (a.Some? || b.Some?) && IsMax([a, b, c], r)
    ensures r == Ok(Raise(Raise(Or(a, b).value, b), c))
  {
    assert a in [a, b, c] && b in [a, b, c] && c in [a, b, c];
  }

  // ---------------------------------------------------------------------
  // What every resolution keeps
  // ---------------------------------------------------------------------

  /** The result is never below the floor nor below trusted enforcement, break-glass or not. */
  lemma BoundsHoldEvenUnderBreakGlass(h: Host, instant: string -> Option<int>, i: Inputs)
    ensures var r := Resolve(h, instant, i);
            r.Ok? ==> Covers(r.value.resolved, Normalize(h, i.floor))
                      && (SourceTrusted(h, i) ==> Covers(r.value.resolved, Normalize(h, i.enforced)))
  {
    NoProblemMeansBounds(AllReadable(h, i), ReadModes(h, i), GlassActive(instant, i.glass));
  }

  lemma NoProblemMeansBounds(readable: bool, m: Modes, glass: Result<bool, ProfileError>)
    ensures FirstProblem(readable, m, glass).None? ==>
              && HasDefault(m) && glass.Ok?
              && Covers(Effective(m, glass.value), m.floor)
              && Covers(Effective(m, glass.value), m.trusted)
  {
  }

  /** Without an active break-glass the result is the least upper bound of defaults, trusted enforcement and request. */
  lemma ResultIsLeastUpperBound(h: Host, instant: string -> Option<int>, i: Inputs)
    ensures var (r, m) := (Resolve(h, instant, i), ReadModes(h, i));
            r.Ok? && !r.value.glassActive ==> IsJoin([m.repo, m.init, m.trusted, m.requested], r.value.resolved)
  {
    EffectiveIsJoin(ReadModes(h, i));
  }

  lemma EffectiveIsJoin(m: Modes)
    ensures HasDefault(m) ==> IsJoin([m.repo, m.init, m.trusted, m.requested], Effective(m, false))
  {
  }

  /** A break-glass record lowers the result only to the request itself, and only below the baseline. */
  lemma BreakGlassOnlyGrantsTheRequest(h: Host, instant: string -> Option<int>, i: Inputs)
    ensures var (r, m) := (Resolve(h, instant, i), ReadModes(h, i));
            r.Ok? ==> || IsJoin([m.repo, m.init, m.trusted, m.requested], r.value.resolved)
                      || (r.value.glassActive && m.requested == Some(r.value.resolved) && AsksDownshift(m))
  {
    EffectiveIsJoin(ReadModes(h, i));
  }

  ghost predicate ReachesFloor(p: Option<Profile>, floor: Option<Profile>)
  {
    p.Some? && Covers(p.value, floor)
  }

  /** When resolution returns: rules a caller can check on the inputs, in no particular order. */
  lemma SucceedsExactly(h: Host, instant: string -> Option<int>, i: Inputs)
    ensures var (m, glass) := (ReadModes(h, i), GlassActive(instant, i.glass));
            Resolve(h, instant, i).Ok? <==>
            && Named(h, i.requested) && Named(h, i.repo) && Named(h, i.init) && Named(h, i.enforced) && Named(h, i.floor)
            && (m.repo.Some? || m.init.Some?)
            && glass.Ok?
            && (m.enforced.Some? && !SourceTrusted(h, i) ==> Some(Regulated) !in [m.repo, m.init, m.floor])
            && if AsksDownshift(m)
               then glass.value && Covers(m.requested.value, m.floor) && Covers(m.requested.value, m.trusted)
               else exists p <- [m.repo, m.init, m.trusted, m.requested] :: ReachesFloor(p, m.floor)
  {
    var m, glass := ReadModes(h, i), GlassActive(instant, i.glass);
    NamedIsReadable(h, i.requested);
    NamedIsReadable(h, i.repo);
    NamedIsReadable(h, i.init);
    NamedIsReadable(h, i.enforced);
    NamedIsReadable(h, i.floor);
    SucceedsOn(m, AllReadable(h, i), glass);
  }

  /** A mode that is absent, empty, or one of the seven names in any case and with any whitespace around it. */
  ghost predicate Named(h: Host, mode: Option<string>)
  {
    || mode.None? || mode.value == ""
    || Lower(h, Strip(mode.value)) in {"solo", "user", "team", "pipeline", "system", "regulated", "agents_strict"}
  }

  lemma NamedIsReadable(h: Host, mode: Option<string>)
    ensures Named(h, mode) <==> !Unreadable(h, mode)
  {
    if mode.Some? {
      NamesMean(h, mode.value, Lower(h, Strip(mode.value)));
      assert Normalize(h, mode).Some? ==> Normalize(h, mode).value in {Solo, Team, Regulated};
    }
  }

  lemma SucceedsOn(m: Modes, readable: bool, glass: Result<bool, ProfileError>)
    ensures FirstProblem(readable, m, glass).None? <==>
            && readable
            && HasDefault(m)
            && glass.Ok?
            && (m.enforced.Some? && m.trusted.None? ==> Some(Regulated) !in [m.repo, m.init, m.floor])
            && if AsksDownshift(m)
               then glass.value && Covers(m.requested.value, m.floor) && Covers(m.requested.value, m.trusted)
               else exists p <- [m.repo, m.init, m.trusted, m.requested] :: ReachesFloor(p, m.floor)
  {
    var modes, guards := [m.repo, m.init, m.trusted, m.requested], [m.repo, m.init, m.floor];
    assert modes[0] == m.repo && modes[1] == m.init && modes[2] == m.trusted && modes[3] == m.requested;
    assert guards[0] == m.repo && guards[1] == m.init && guards[2] == m.floor;
    if HasDefault(m) {
      assert Some(Effective(m, false)) in modes;
    }
  }

  /** With all else equal, asking for more never yields less. */
  lemma HigherRequestNeverLowers(h: Host, instant: string -> Option<int>, i: Inputs, more: Option<string>)
    ensures var (r, t) := (Resolve(h, instant, i), Resolve(h, instant, i.(requested := more)));
            var (low, high) := (Normalize(h, i.requested), Normalize(h, more));
            r.Ok? && t.Ok? && low.Some? && high.Some? && AtLeast(high.value, low.value) ==>
              AtLeast(t.value.resolved, r.value.resolved)
  {
  }

  // ---------------------------------------------------------------------
  // Names, trust, break-glass and errors, spelled out
  // ---------------------------------------------------------------------

  /** Solo is below team, and team below regulated. */
  lemma ProfilesAreOrdered()
    ensures IsDownshift(Regulated, Team) && IsDownshift(Team, Solo) && IsDownshift(Regulated, Solo)
    ensures forall p: Profile, q: Profile :: IsDownshift(p, q) ==> !IsDownshift(q, p)
  {
  }

  /** The names of the profiles, old ones included. */
  lemma NamesMean(h: Host, mode: string, name: string)
    requires name == Lower(h, Strip(mode))
    ensures Normalize(h, Some(mode)) == Some(Solo) <==> name in {"solo", "user"}
    ensures Normalize(h, Some(mode)) == Some(Team) <==> name in {"team", "pipeline", "system"}
    ensures Normalize(h, Some(mode)) == Some(Regulated) <==> name in {"regulated", "agents_strict"}
    ensures Normalize(h, None) == None
  {
    assert |"solo"| == 4 && |"user"| == 4 && |"team"| == 4 && |"system"| == 6 && |"pipeline"| == 8;
    assert |"regulated"| == 9 && |"agents_strict"| == 13;
    assert "solo"[0] == 's' && "user"[0] == 'u' && "team"[0] == 't';
  }

  /** What each source needs to be trusted; the local runtime and unknown sources never are. */
  lemma TrustMeans(h: Host, i: Inputs, s: Signals, name: string)
    requires i.source.Some? && name == Lower(h, Strip(i.source.value))
    requires s == if i.signals.Some? then i.signals.value else Signals(false, false, false, false, false)
    ensures SourceTrusted(h, i) <==>
            || (name in {"ci", "pipeline"} && s.ci)
            || (name == "protected-pipeline" && s.ci && s.protectedPipeline)
            || (name == "regulated-pipeline" && s.ci && s.regulatedPipeline)
            || (name == "repo-policy" && s.repoPolicy)
            || (name == "org-policy" && s.orgPolicy)
  {
    SourceNamesDiffer(name);
  }

  lemma SourceNamesDiffer(name: string)
    ensures name == "ci" ==> |name| == 2
    ensures name == "pipeline" ==> |name| == 8
    ensures name == "protected-pipeline" ==> |name| == 18 && name[0] == 'p'
    ensures name == "regulated-pipeline" ==> |name| == 18 && name[0] == 'r'
    ensures name == "repo-policy" ==> |name| == 11
    ensures name == "org-policy" ==> |name| == 10
    ensures name == "local" ==> |name| == 5
    ensures name == "local-runtime" ==> |name| == 13
  {
  }

  ghost predicate Blank(o: Option<string>)
  {
    o.None? || AllSpace(o.value)
  }

  lemma AbsentOrBlank(o: Option<string>)
    ensures Trim(o) == "" <==> Blank(o)
  {
    if o.Some? {
      BlankMeans(o.value);
    }
  }

  /** A record is active when it says why, who, what and for what, and expires strictly after now. */
  lemma GlassMeans(instant: string -> Option<int>, g: BreakGlass)
    ensures var r := GlassActive(instant, g);
            && (r == Ok(false) <==> Blank(g.reason))
            && (r == Raised(BreakGlassInvalid) <==>
                !Blank(g.reason) && (Blank(g.actor) || Blank(g.scope) || Blank(g.rationale)))
            && (r == Ok(true) <==>
                && !Blank(g.reason) && !Blank(g.actor) && !Blank(g.scope) && !Blank(g.rationale)
                && !Blank(g.expiresAt) && !Blank(g.now)
                && instant(Strip(g.expiresAt.value)).Some? && instant(Strip(g.now.value)).Some?
                && instant(Strip(g.now.value)).value < instant(Strip(g.expiresAt.value)).value)
            && (r.Raised? ==> r.error == BreakGlassInvalid || r.error == BreakGlassExpired)
  {
    AbsentOrBlank(g.reason);
    AbsentOrBlank(g.actor);
    AbsentOrBlank(g.scope);
    AbsentOrBlank(g.rationale);
    AbsentOrBlank(g.expiresAt);
    AbsentOrBlank(g.now);
  }

  /** The conflict with enforcement can arise only from a request that break-glass lets through below the baseline. */
  lemma ConflictNeedsBreakGlass(readable: bool, m: Modes, glass: Result<bool, ProfileError>)
    ensures FirstProblem(readable, m, glass) == Some(ProfileConflict) && glass != Raised(ProfileConflict) ==>
              glass == Ok(true) && AsksDownshift(m) && IsDownshift(m.trusted.value, m.requested.value)
  {
  }

  /** A request below the baseline without break-glass is refused as such, once the inputs are in order. */
  lemma DownshiftIsForbidden(m: Modes)
    requires HasDefault(m) && (m.enforced.Some? ==> m.trusted.Some?)
    ensures FirstProblem(true, m, Ok(false)) == Some(ForbiddenDownshift) <==> AsksDownshift(m)
    ensures FirstProblem(true, m, Ok(false)) == Some(FloorViolation) <==>
              && !AsksDownshift(m) && m.floor.Some?
              && !exists p <- [m.repo, m.init, m.trusted, m.requested] :: ReachesFloor(p, m.floor)
  {
    SucceedsOn(m, true, Ok(false));
    EffectiveIsJoin(m);
  }

  /** What a resolution reports besides its result. */
  lemma ReportedModes(h: Host, instant: string -> Option<int>, i: Inputs)
    ensures var (r, m) := (Resolve(h, instant, i), ReadModes(h, i));
            r.Ok? ==>
              && r.value.requested == m.requested && r.value.floor == m.floor
              && (m.repo.Some? ==> Some(r.value.repo) == m.repo) && (m.init.Some? ==> Some(r.value.init) == m.init)
              && (m.repo.None? ==> Some(r.value.repo) == m.init) && (m.init.None? ==> Some(r.value.init) == m.repo)
              && (r.value.enforced.Some? <==> m.enforced.Some? && SourceTrusted(h, i))
              && (r.value.enforced.Some? ==> r.value.enforced == m.enforced)
              && (r.value.trusted <==> SourceTrusted(h, i))
              && GlassActive(instant, i.glass) == Ok(r.value.glassActive)
  {
  }
}
