/** Retention: whether an archived run may be deleted, and how long to wait otherwise. */
module Retention {
  datatype Scope = AllRuns | OneRepo(fingerprint: string) | OneRun(runId: string) | OtherScope

  datatype Hold = Hold(id: string, scope: Scope, active: bool)

  datatype Decision =
    | Allowed
    | BlockedByHold(id: string)
    | BlockedByRegulation(remaining: int)
    | BlockedByRetention(remaining: int)

  datatype Request = Request(
    runId: string,
    fingerprint: string,
    level: string,
    framework: string,
    age: int,
    regulated: bool,
    regulatedMinimum: int,
    holds: seq<Hold>)

  /** Unknown levels are treated as restricted. */
  function LevelDays(level: string): nat
  {
    if level == "public" then 365
    else if level == "internal" then 1095
    else if level == "confidential" then 2555
    else 3650
  }

  function FrameworkDays(framework: string): nat
  {
    if framework == "DATEV" || framework == "GoBD" then 3650
    else if framework == "BaFin" || framework == "Basel_III" then 1825
    else if framework == "SOX" then 2555
    else if framework == "GDPR" then 365
    else if framework == "ISO_27001" then 1095
    else 0
  }

  function Max(a: int, b: int): int
  {
    if a < b then b else a
  }

  function EffectiveDays(level: string, framework: string): (days: int)
    ensures LevelDays(level) <= days && FrameworkDays(framework) <= days
    ensures days == LevelDays(level) || days == FrameworkDays(framework)
  {
    Max(LevelDays(level), FrameworkDays(framework))
  }

  predicate Blocks(r: Request, hold: Hold)
  {
    && hold.active
    && match hold.scope
       case AllRuns => true
       case OneRepo(fingerprint) => fingerprint == r.fingerprint
       case OneRun(runId) => runId == r.runId
       case OtherScope => false
  }

  ghost predicate Held(r: Request)
  {
    exists i :: 0 <= i < |r.holds| && Blocks(r, r.holds[i])
  }

  /** The age at which deletion becomes possible. */
  function RequiredAge(r: Request): int
  {
    Max(if r.regulated then Max(r.regulatedMinimum, 0) else 0, EffectiveDays(r.level, r.framework))
  }

  /** Holds first, the regulated minimum next, the retention period last. */
  ghost predicate IsDecision(r: Request, d: Decision)
  {
    match d
    case BlockedByHold(id) =>
      exists i :: 0 <= i < |r.holds| && Blocks(r, r.holds[i]) && r.holds[i].id == id
                  && forall j :: 0 <= j < i ==> !Blocks(r, r.holds[j])
    case BlockedByRegulation(remaining) =>
      !Held(r) && r.regulated && r.age < r.regulatedMinimum && 0 < r.regulatedMinimum
      && r.age + remaining == r.regulatedMinimum
    case BlockedByRetention(remaining) =>
      !Held(r) && !(r.regulated && r.age < r.regulatedMinimum && 0 < r.regulatedMinimum)
      && r.age < EffectiveDays(r.level, r.framework) && r.age + remaining == EffectiveDays(r.level, r.framework)
    case Allowed => !Held(r) && r.age >= RequiredAge(r)
  }

  method EvaluateDeletion(r: Request) returns (d: Decision)
    ensures IsDecision(r, d)
  {
    for i := 0 to |r.holds|
      invariant forall j :: 0 <= j < i ==> !Blocks(r, r.holds[j])
    {
      if Blocks(r, r.holds[i]) {
        return BlockedByHold(r.holds[i].id);
      }
    }
    if r.regulated && r.regulatedMinimum > 0 && r.age < r.regulatedMinimum {
      return BlockedByRegulation(r.regulatedMinimum - r.age);
    }
    var days := EffectiveDays(r.level, r.framework);
    if r.age < days {
      return BlockedByRetention(days - r.age);
    }
    d := Allowed;
  }

  /** The meaning leaves one decision, and it is `Allowed` exactly when nothing holds and the required age is reached. */
  lemma DecisionIsDetermined(r: Request, d: Decision, e: Decision)
    requires IsDecision(r, d) && IsDecision(r, e)
    ensures d == e
    ensures d == Allowed <==> !Held(r) && r.age >= RequiredAge(r)
  {
  }

  /** Growing older never withdraws a permission. */
  lemma PermissionLasts(r: Request, older: int, d: Decision, e: Decision)
    requires r.age <= older
    requires IsDecision(r, d) && IsDecision(r.(age := older), e)
    ensures d == Allowed ==> e == Allowed
  {
  }

  /** Taking holds away never withdraws a permission. */
  lemma FewerHoldsNeverBlock(r: Request, fewer: seq<Hold>, d: Decision, e: Decision)
    requires forall h <- fewer :: h in r.holds
    requires IsDecision(r, d) && IsDecision(r.(holds := fewer), e)
    ensures d == Allowed ==> e == Allowed
  {
    var s := r.(holds := fewer);
    assert Held(s) ==> Held(r) by {
      if Held(s) {
        var i :| 0 <= i < |fewer| && Blocks(s, fewer[i]);
        assert fewer[i] in r.holds;
        var j :| 0 <= j < |r.holds| && r.holds[j] == fewer[i];
        assert Blocks(r, r.holds[j]);
      }
    }
    DecisionIsDetermined(s, e, e);
  }

  function Remaining(d: Decision): int
  {
    match d
    case BlockedByRegulation(n) => n
    case BlockedByRetention(n) => n
    case _ => 0
  }

  /** Without a blocking hold, waiting out what is reported, at most twice, ends in permission, at just the required age. */
  lemma TwoWaitsSuffice(r: Request, first: Decision, second: Decision, third: Decision)
    requires !Held(r)
    requires IsDecision(r, first)
    requires IsDecision(r.(age := r.age + Remaining(first)), second)
    requires IsDecision(r.(age := r.age + Remaining(first) + Remaining(second)), third)
    ensures third == Allowed
    ensures first.BlockedByRetention? ==> second == Allowed
    ensures first != Allowed ==> Remaining(first) > 0
    ensures r.age + Remaining(first) + Remaining(second) == Max(r.age, RequiredAge(r))
  {
    AgeKeepsHolds(r, r.age + Remaining(first));
    AgeKeepsHolds(r, r.age + Remaining(first) + Remaining(second));
  }

  lemma AgeKeepsHolds(r: Request, age: int)
    ensures Held(r.(age := age)) <==> Held(r)
  {
    var s := r.(age := age);
    assert forall h :: Blocks(s, h) <==> Blocks(r, h);
  }

  /** The periods: by level, with unknown levels as restricted, and raised by a framework that asks for more. */
  lemma PeriodsMean(level: string, framework: string)
    ensures level == "public" ==> LevelDays(level) == 365
    ensures level == "internal" ==> LevelDays(level) == 3 * 365
    ensures level == "confidential" ==> LevelDays(level) == 7 * 365
    ensures level !in {"public", "internal", "confidential"} ==> LevelDays(level) == 10 * 365
    ensures framework in {"DATEV", "GoBD"} ==> FrameworkDays(framework) == 10 * 365
    ensures framework in {"BaFin", "Basel_III"} ==> FrameworkDays(framework) == 5 * 365
    ensures framework == "SOX" ==> FrameworkDays(framework) == 7 * 365
    ensures framework == "ISO_27001" ==> FrameworkDays(framework) == 3 * 365
    ensures framework == "GDPR" ==> FrameworkDays(framework) == 365
    ensures framework !in {"DATEV", "GoBD", "BaFin", "Basel_III", "SOX", "ISO_27001", "GDPR"} ==>
              FrameworkDays(framework) == 0
  {
    assert |"DATEV"| == 5 && |"GoBD"| == 4 && |"BaFin"| == 5 && |"Basel_III"| == 9 && |"SOX"| == 3;
    assert |"GDPR"| == 4 && |"ISO_27001"| == 9 && "DATEV"[0] == 'D' && "BaFin"[0] == 'B' && "GoBD"[1] == 'o';
    assert "GDPR"[1] == 'D' && "Basel_III"[0] == 'B' && "ISO_27001"[0] == 'I';
  }

  /** Which runs a hold covers while it is active. */
  lemma HoldMeans(r: Request, hold: Hold)
    ensures Blocks(r, hold) <==>
            hold.active && (hold.scope == AllRuns || hold.scope == OneRepo(r.fingerprint) || hold.scope == OneRun(r.runId))
  {
  }
}
