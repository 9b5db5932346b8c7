/** Engine activation and rollback: one active pointer, a bounded stack of earlier ones, an audit trail. */
module Lifecycle {
  import opened Options

  const MAX_ROLLBACK_DEPTH := 5

  /** A pointer to an engine: named text entries; the empty map stands for no engine at all. */
  type Pointer = map<string, string>

  datatype Event =
    | ActivationStaged(observedAt: string, version: string, depth: nat)
    | RolledBack(observedAt: string, trigger: string, version: string, remaining: nat)
    | RollbackSkipped(observedAt: string, trigger: string)

  datatype EngineState = EngineState(active: Pointer, stack: seq<Pointer>, trail: seq<Event>)

  const DEFAULT: EngineState := EngineState(map[], [], [])

  function Version(p: Pointer): string
  {
    if "version" in p then p["version"] else ""
  }

  function NewPointer(version: string, sha: string, ruleset: string, at: string): Pointer
  {
    map["version" := version, "sha256" := sha, "ruleset_hash" := ruleset, "observed_at" := at]
  }

  /** The last `n` entries, or all of them when there are fewer. */
  function LastN<T>(n: nat, s: seq<T>): seq<T>
  {
    if |s| <= n then s else s[|s| - n..]
  }

  // ---------------------------------------------------------------------
  // The two operations on the lifecycle state
  // ---------------------------------------------------------------------

  function Pushed(s: EngineState): seq<Pointer>
  {
    if s.active == map[] then s.stack else LastN(MAX_ROLLBACK_DEPTH, s.stack + [s.active])
  }

  function Stage(s: EngineState, p: Pointer, at: string): EngineState
  {
    EngineState(p, Pushed(s), s.trail + [ActivationStaged(at, Version(p), |Pushed(s)|)])
  }

  function Rollback(s: EngineState, trigger: string, at: string): EngineState
  {
    if s.stack == [] then s.(trail := s.trail + [RollbackSkipped(at, trigger)])
    else
      var top, rest := s.stack[|s.stack| - 1], s.stack[..|s.stack| - 1];
      EngineState(top, rest, s.trail + [RolledBack(at, trigger, Version(top), |rest|)])
  }

  // ---------------------------------------------------------------------
  // The document on disk
  // ---------------------------------------------------------------------

  /** The lifecycle section as found; `None` for a part that is missing or of the wrong type. */
  datatype RawLifecycle = RawLifecycle(
    active: Option<Pointer>,
    previous: Option<Pointer>,
    stack: Option<seq<Pointer>>,
    trail: Option<seq<Event>>)

  datatype Content =
    | Missing
    | NotAnObject
    | Object(paths: Option<map<string, string>>, lifecycle: Option<RawLifecycle>)

  /** A document after reading: every part present; `previous` survives only when it is an empty mapping. */
  datatype Document = Document(paths: map<string, string>, state: EngineState, previous: Option<Pointer>)

  datatype LifecycleError = IntegrityFailed | NotAJsonObject

  function OrElse<T>(o: Option<T>, default_: T): T
  {
    if o.Some? then o.value else default_
  }

  /** Missing parts get defaults; a legacy single previous pointer becomes a one-entry stack. */
  function Read(c: Content): Result<Document, LifecycleError>
  {
    match c
    case Missing => Ok(Document(map[], DEFAULT, None))
    case NotAnObject => Raised(NotAJsonObject)
    case Object(paths, lifecycle) =>
      var raw := OrElse(lifecycle, RawLifecycle(None, None, None, None));
      var legacy := raw.previous.Some? && raw.previous.value != map[];
      var stack := if legacy then [raw.previous.value] else OrElse(raw.stack, []);
      Ok(Document(
        OrElse(paths, map[]),
        EngineState(OrElse(raw.active, map[]), stack, OrElse(raw.trail, [])),
        if legacy then None else raw.previous))
  }

  function Write(d: Document): Content
  {
    Object(Some(d.paths), Some(RawLifecycle(Some(d.state.active), d.previous, Some(d.state.stack), Some(d.state.trail))))
  }

  /** Reading back what was written after a read changes nothing: the upgrade happens once. */
  lemma ReadWriteRead(c: Content)
    ensures Read(c).Ok? ==> Read(Write(Read(c).value)) == Read(c)
    ensures Read(c).Ok? ==> forall s :: Read(Write(Read(c).value.(state := s))) == Ok(Read(c).value.(state := s))
  {
  }

  /** A legacy pointer is taken over as the one pointer below the active one, and a rollback goes back to it. */
  lemma LegacyPointerIsKept(c: Content, p: Pointer, trigger: string, at: string)
    requires c.Object? && c.lifecycle.Some? && c.lifecycle.value.previous == Some(p) && p != map[]
    ensures Read(c).Ok? && Read(c).value.state.stack == [p] && Read(c).value.previous == None
    ensures Rollback(Read(c).value.state, trigger, at).active == p && Rollback(Read(c).value.state, trigger, at).stack == []
  {
  }

  /** Without one, whatever parts are there are read as they are, and each missing part on its own is empty. */
  lemma PartsAreRead(c: Content)
    requires c.Object? && (c.lifecycle.None? || c.lifecycle.value.previous in {None, Some(map[])})
    ensures Read(c).Ok?
    ensures var d := Read(c).value;
            && (c.paths == Some(d.paths) || (c.paths.None? && d.paths == map[]))
            && (c.lifecycle.None? ==> d.state == DEFAULT && d.previous == None)
            && (c.lifecycle.Some? ==>
                  var l := c.lifecycle.value;
                  && (l.active == Some(d.state.active) || (l.active.None? && d.state.active == map[]))
                  && (l.stack == Some(d.state.stack) || (l.stack.None? && d.state.stack == []))
                  && (l.trail == Some(d.state.trail) || (l.trail.None? && d.state.trail == []))
                  && l.previous == d.previous)
  {
  }

  /** The paths file, read and rewritten by every operation. */
  class PathsFile {
    var content: Content

    constructor (initial: Content)
      ensures content == initial
    {
      content := initial;
    }

    /** `integrity` is the outcome of the ruleset check, when a ruleset directory was given. */
    method StageActivation(version: string, sha: string, ruleset: string, at: string, integrity: Option<bool>)
      returns (r: Result<Document, LifecycleError>)
      modifies this
      ensures integrity == Some(false) ==> r == Raised(IntegrityFailed) && content == old(content)
      ensures integrity != Some(false) && Read(old(content)).Raised? ==>
                r == Read(old(content)) && content == old(content)
      ensures integrity != Some(false) && Read(old(content)).Ok? ==>
                && r == Ok(Read(old(content)).value.(
                             state := Stage(Read(old(content)).value.state, NewPointer(version, sha, ruleset, at), at)))
                && Read(content) == r
      ensures r.Ok? ==>
                var (s, trail) := (r.value.state, r.value.state.trail);
                && s.active.Keys == {"version", "sha256", "ruleset_hash", "observed_at"}
                && s.active["version"] == version && s.active["sha256"] == sha
                && s.active["ruleset_hash"] == ruleset && s.active["observed_at"] == at
                && trail[|trail| - 1] == ActivationStaged(at, version, |s.stack|)
    {
      if integrity == Some(false) {
        return Raised(IntegrityFailed);
      }
      var doc := Read(content);
      if doc.Raised? {
        return doc;
      }
      var active, stack := doc.value.state.active, doc.value.state.stack;
      if active != map[] {
        stack := stack + [active];
        if |stack| > MAX_ROLLBACK_DEPTH {
          stack := stack[|stack| - MAX_ROLLBACK_DEPTH..];
        }
      }
      var event := ActivationStaged(at, version, |stack|);
      var next := doc.value.(state := EngineState(NewPointer(version, sha, ruleset, at), stack,
                                                  doc.value.state.trail + [event]));
      content := Write(next);
      r := Ok(next);
    }

    method RollbackActivation(trigger: string, at: string) returns (r: Result<Document, LifecycleError>)
      modifies this
      ensures Read(old(content)).Raised? ==> r == Read(old(content)) && content == old(content)
      ensures Read(old(content)).Ok? ==>
                && r == Ok(Read(old(content)).value.(
                             state := Rollback(Read(old(content)).value.state, trigger, at)))
                && Read(content) == r
      ensures r.Ok? ==>
                var (was, trail) := (Read(old(content)).value.state, r.value.state.trail);
                trail[|trail| - 1] ==
                  if was.stack == [] then RollbackSkipped(at, trigger)
                  else RolledBack(at, trigger, Version(was.stack[|was.stack| - 1]), |was.stack| - 1)
    {
      var doc := Read(content);
      if doc.Raised? {
        return doc;
      }
      var s := doc.value.state;
      if s.stack == [] {
        s := s.(trail := s.trail + [RollbackSkipped(at, trigger)]);
      } else {
        var recovered := s.stack[|s.stack| - 1];
        var stack := s.stack[..|s.stack| - 1];
        s := EngineState(recovered, stack, s.trail + [RolledBack(at, trigger, Version(recovered), |stack|)]);
      }
      content := Write(doc.value.(state := s));
      r := Ok(doc.value.(state := s));
    }

    /** A sequence of operations on a readable file is a run of its state; an unreadable file is left alone. */
    method RunAll(ops: seq<Op>)
      modifies this
      ensures Read(old(content)).Raised? ==> content == old(content)
      ensures Read(old(content)).Ok? ==>
                && Read(content).Ok?
                && Read(content).value == Read(old(content)).value.(state := Run(Read(old(content)).value.state, ops))
    {
      for i := 0 to |ops|
        invariant Read(old(content)).Raised? ==> content == old(content)
        invariant Read(old(content)).Ok? ==>
                    && Read(content).Ok?
                    && Read(content).value ==
                         Read(old(content)).value.(state := Run(Read(old(content)).value.state, ops[..i]))
      {
        assert ops[..i + 1][..i] == ops[..i];
        match ops[i]
        case StageOp(version, sha, ruleset, at) =>
          var staged := StageActivation(version, sha, ruleset, at, None);
        case RollbackOp(trigger, at) =>
          var restored := RollbackActivation(trigger, at);
      }
      assert ops[..|ops|] == ops;
    }
  }

  // ---------------------------------------------------------------------
  // Runs
  // ---------------------------------------------------------------------

  datatype Op =
    | StageOp(version: string, sha: string, ruleset: string, at: string)
    | RollbackOp(trigger: string, at: string)

  function Apply(s: EngineState, op: Op): EngineState
  {
    match op
    case StageOp(version, sha, ruleset, at) => Stage(s, NewPointer(version, sha, ruleset, at), at)
    case RollbackOp(trigger, at) => Rollback(s, trigger, at)
  }

  ghost function Run(s: EngineState, ops: seq<Op>): EngineState
  {
    if ops == [] then s else Apply(Run(s, ops[..|ops| - 1]), ops[|ops| - 1])
  }

  lemma {:induction false} RunAppend(s: EngineState, a: seq<Op>, b: seq<Op>)
    ensures Run(s, a + b) == Run(Run(s, a), b)
    decreases |b|
  {
    if b == [] {
      assert a + b == a;
    } else {
      assert (a + b)[..|a + b| - 1] == a + b[..|b| - 1];
      RunAppend(s, a, b[..|b| - 1]);
    }
  }

  /** Within the depth bound, a run stays within it. */
  lemma {:induction false} DepthStaysBounded(s: EngineState, ops: seq<Op>)
    requires |s.stack| <= MAX_ROLLBACK_DEPTH
    ensures |Run(s, ops).stack| <= MAX_ROLLBACK_DEPTH
  {
    if ops != [] {
      DepthStaysBounded(s, ops[..|ops| - 1]);
    }
  }

  /** An over-deep stack in a document is cut by the next activation that pushes; nothing else shortens it but rollbacks. */
  lemma ActivationCutsDepth(s: EngineState, p: Pointer, at: string)
    ensures |Stage(s, p, at).stack| <= MAX_ROLLBACK_DEPTH <==> s.active != map[] || |s.stack| <= MAX_ROLLBACK_DEPTH
  {
  }

  // The history: every pointer pushed and not yet popped, with nothing cut.

  ghost function HistoryAfter(s: EngineState, ops: seq<Op>): seq<Pointer>
  {
    if ops == [] then s.stack
    else
      var front := ops[..|ops| - 1];
      var before, h := Run(s, front), HistoryAfter(s, front);
      match ops[|ops| - 1]
      case StageOp(_, _, _, _) => if before.active == map[] then h else h + [before.active]
      case RollbackOp(_, _) => if before.stack == [] || h == [] then h else h[..|h| - 1]
  }

  ghost predicate IsSuffix<T>(s: seq<T>, t: seq<T>)
  {
    |s| <= |t| && s == t[|t| - |s|..]
  }

  lemma PushKeepsSuffix(stack: seq<Pointer>, history: seq<Pointer>, p: Pointer)
    requires IsSuffix(stack, history)
    ensures IsSuffix(LastN(MAX_ROLLBACK_DEPTH, stack + [p]), history + [p])
  {
  }

  lemma PopKeepsSuffix(stack: seq<Pointer>, history: seq<Pointer>)
    requires IsSuffix(stack, history) && stack != []
    ensures history != [] && stack[|stack| - 1] == history[|history| - 1]
    ensures IsSuffix(stack[..|stack| - 1], history[..|history| - 1])
  {
  }

  /** In every run the stack is the end of that history. */
  lemma {:induction false} StackIsSuffixOfHistory(s: EngineState, ops: seq<Op>)
    ensures IsSuffix(Run(s, ops).stack, HistoryAfter(s, ops))
  {
    if ops != [] {
      var front := ops[..|ops| - 1];
      StackIsSuffixOfHistory(s, front);
      var at := Run(s, front);
      PushKeepsSuffix(at.stack, HistoryAfter(s, front), at.active);
      if at.stack != [] {
        PopKeepsSuffix(at.stack, HistoryAfter(s, front));
      }
    }
  }

  // The uncut machine: the same operations on a stack without bound.

  function ApplyUncut(s: EngineState, op: Op): EngineState
  {
    match op
    case StageOp(version, sha, ruleset, at) =>
      EngineState(NewPointer(version, sha, ruleset, at), if s.active == map[] then s.stack else s.stack + [s.active],
                  s.trail)
    case RollbackOp(trigger, at) => Rollback(s, trigger, at).(trail := s.trail)
  }

  ghost function RunUncut(s: EngineState, ops: seq<Op>): EngineState
  {
    if ops == [] then s else ApplyUncut(RunUncut(s, ops[..|ops| - 1]), ops[|ops| - 1])
  }

  /** The operation asks for a pointer that was cut off: a rollback with nothing left where the uncut stack has some. */
  ghost predicate MissesCut(s: EngineState, ops: seq<Op>, k: nat)
    requires k < |ops|
  {
    ops[k].RollbackOp? && Run(s, ops[..k]).stack == [] && RunUncut(s, ops[..k]).stack != []
  }

  /** The same active pointer, and the end of the same stack. */
  ghost predicate Agrees(s: EngineState, uncut: EngineState)
  {
    s.active == uncut.active && IsSuffix(s.stack, uncut.stack)
  }

  lemma StepAgrees(s: EngineState, uncut: EngineState, op: Op)
    requires Agrees(s, uncut) && !(op.RollbackOp? && s.stack == [] && uncut.stack != [])
    ensures Agrees(Apply(s, op), ApplyUncut(uncut, op))
  {
    match op
    case StageOp(_, _, _, _) => StageAgrees(s, uncut, Apply(s, op), ApplyUncut(uncut, op), op);
    case RollbackOp(trigger, at) =>
      if s.stack != [] {
        RollbackAgrees(s, uncut, trigger, at);
      }
  }

  lemma StageAgrees(s: EngineState, uncut: EngineState, after: EngineState, uncutAfter: EngineState, op: Op)
    requires Agrees(s, uncut) && op.StageOp? && after == Apply(s, op) && uncutAfter == ApplyUncut(uncut, op)
    ensures Agrees(after, uncutAfter)
  {
    PushKeepsSuffix(s.stack, uncut.stack, s.active);
  }

  lemma RollbackAgrees(s: EngineState, uncut: EngineState, trigger: string, at: string)
    requires Agrees(s, uncut) && s.stack != []
    ensures Agrees(Rollback(s, trigger, at), Rollback(uncut, trigger, at))
  {
    PopKeepsSuffix(s.stack, uncut.stack);
  }

  /** Until a run misses a cut pointer it has the active pointer and the end of the stack of the uncut machine. */
  lemma {:induction false} CutIsInvisible(s: EngineState, ops: seq<Op>)
    requires forall k :: 0 <= k < |ops| ==> !MissesCut(s, ops, k)
    ensures Agrees(Run(s, ops), RunUncut(s, ops))
  {
    if ops != [] {
      var front := ops[..|ops| - 1];
      forall k | 0 <= k < |front|
        ensures !MissesCut(s, front, k)
      {
        assert front[..k] == ops[..k];
        assert !MissesCut(s, ops, k);
      }
      CutIsInvisible(s, front);
      assert !MissesCut(s, ops, |front|);
      StepAgrees(Run(s, front), RunUncut(s, front), ops[|front|]);
    }
  }

  /** A missed cut shows at once: the bounded machine stays where it is, the uncut one goes on. */
  lemma MissedCutDiverges(s: EngineState, ops: seq<Op>)
    requires ops != [] && MissesCut(s, ops, |ops| - 1)
    ensures Run(s, ops).active == Run(s, ops[..|ops| - 1]).active && Run(s, ops).stack == []
    ensures |RunUncut(s, ops).stack| == |RunUncut(s, ops[..|ops| - 1]).stack| - 1
  {
  }

  // ---------------------------------------------------------------------
  // Stages followed by rollbacks
  // ---------------------------------------------------------------------

  ghost predicate AllStages(ops: seq<Op>)
  {
    forall i :: 0 <= i < |ops| ==> ops[i].StageOp?
  }

  ghost predicate AllRollbacks(ops: seq<Op>)
  {
    forall i :: 0 <= i < |ops| ==> ops[i].RollbackOp?
  }

  ghost function Staged(ops: seq<Op>): (r: seq<Pointer>)
    requires AllStages(ops)
    ensures |r| == |ops|
  {
    if ops == [] then []
    else
      var last := ops[|ops| - 1];
      Staged(ops[..|ops| - 1]) + [NewPointer(last.version, last.sha, last.ruleset, last.at)]
  }

  /** Every pointer the document can return to, oldest first, the active one last. */
  ghost function Timeline(s: EngineState): seq<Pointer>
  {
    s.stack + [s.active]
  }

  lemma {:induction false} StagesExtendTimeline(s: EngineState, stages: seq<Op>)
    requires AllStages(stages)
    requires s.active != map[] && |s.stack| <= MAX_ROLLBACK_DEPTH
    ensures Run(s, stages).active != map[]
    ensures Timeline(Run(s, stages)) == LastN(MAX_ROLLBACK_DEPTH + 1, Timeline(s) + Staged(stages))
  {
    if stages != [] {
      var front, last := stages[..|stages| - 1], stages[|stages| - 1];
      StagesExtendTimeline(s, front);
      DepthStaysBounded(s, front);
      var p := NewPointer(last.version, last.sha, last.ruleset, last.at);
      assert "version" in p;
      LastNStep(Run(s, front), Timeline(s) + Staged(front), p, last.at);
      assert Timeline(s) + Staged(stages) == (Timeline(s) + Staged(front)) + [p];
    } else {
      assert Timeline(s) + Staged(stages) == Timeline(s);
    }
  }

  lemma LastNStep(s: EngineState, all: seq<Pointer>, p: Pointer, at: string)
    requires s.active != map[] && |s.stack| <= MAX_ROLLBACK_DEPTH
    requires Timeline(s) == LastN(MAX_ROLLBACK_DEPTH + 1, all)
    ensures Timeline(Stage(s, p, at)) == LastN(MAX_ROLLBACK_DEPTH + 1, all + [p])
  {
    assert s.active == Timeline(s)[|s.stack|] && s.stack == Timeline(s)[..|s.stack|];
    assert Timeline(Stage(s, p, at)) == LastN(MAX_ROLLBACK_DEPTH + 1, Timeline(s) + [p]);
  }

  lemma {:induction false} RollbacksCutTimeline(s: EngineState, rollbacks: seq<Op>)
    requires AllRollbacks(rollbacks)
    ensures |rollbacks| <= |s.stack| ==> Timeline(Run(s, rollbacks)) == Timeline(s)[..|s.stack| + 1 - |rollbacks|]
    ensures |rollbacks| > |s.stack| ==> Timeline(Run(s, rollbacks)) == Timeline(s)[..1]
  {
    if rollbacks != [] {
      var front := rollbacks[..|rollbacks| - 1];
      RollbacksCutTimeline(s, front);
      var before := Run(s, front);
      assert |before.stack| == |Timeline(before)| - 1;
      assert before.stack != [] ==> Timeline(Run(s, rollbacks)) == Timeline(before)[..|before.stack|];
    } else {
      assert Timeline(s)[..|s.stack| + 1] == Timeline(s);
    }
  }

  /** Any number of stages and then any number of rollbacks, in closed form. */
  lemma StagesThenRollbacks(s: EngineState, stages: seq<Op>, rollbacks: seq<Op>)
    requires AllStages(stages) && AllRollbacks(rollbacks)
    requires s.active != map[] && |s.stack| <= MAX_ROLLBACK_DEPTH
    ensures var h := LastN(MAX_ROLLBACK_DEPTH + 1, Timeline(s) + Staged(stages));
            Timeline(Run(s, stages + rollbacks)) == h[..if |rollbacks| < |h| then |h| - |rollbacks| else 1]
  {
    RunAppend(s, stages, rollbacks);
    StagesExtendTimeline(s, stages);
    RollbacksCutTimeline(Run(s, stages), rollbacks);
  }

  /** As many rollbacks as stages undo the stages, up to five; beyond five the oldest survivor is as far as it gets. */
  lemma RollbacksUndoStages(s: EngineState, stages: seq<Op>, rollbacks: seq<Op>)
    requires AllStages(stages) && AllRollbacks(rollbacks) && |stages| == |rollbacks|
    requires s.active != map[] && |s.stack| <= MAX_ROLLBACK_DEPTH
    ensures var (after, k) := (Run(s, stages + rollbacks), |stages|);
            && (k <= MAX_ROLLBACK_DEPTH ==>
                  after.active == s.active && after.stack == LastN(MAX_ROLLBACK_DEPTH - k, s.stack))
            && (k > MAX_ROLLBACK_DEPTH ==>
                  after.active == Staged(stages)[k - MAX_ROLLBACK_DEPTH - 1] && after.stack == [])
  {
    StagesThenRollbacks(s, stages, rollbacks);
    UndoneState(Run(s, stages + rollbacks), s, Staged(stages));
  }

  lemma UndoneState(after: EngineState, s: EngineState, added: seq<Pointer>)
    requires |s.stack| <= MAX_ROLLBACK_DEPTH
    requires var h := LastN(MAX_ROLLBACK_DEPTH + 1, Timeline(s) + added);
             Timeline(after) == h[..if |added| < |h| then |h| - |added| else 1]
    ensures |added| <= MAX_ROLLBACK_DEPTH ==>
              after.active == s.active && after.stack == LastN(MAX_ROLLBACK_DEPTH - |added|, s.stack)
    ensures |added| > MAX_ROLLBACK_DEPTH ==>
              after.active == added[|added| - MAX_ROLLBACK_DEPTH - 1] && after.stack == []
  {
    CutBack(Timeline(s), added);
    SplitTimeline(after, s, |added|);
  }

  lemma CutBack(base: seq<Pointer>, added: seq<Pointer>)
    requires 1 <= |base| <= MAX_ROLLBACK_DEPTH + 1
    ensures var (h, k) := (LastN(MAX_ROLLBACK_DEPTH + 1, base + added), |added|);
            && (k <= MAX_ROLLBACK_DEPTH ==> k < |h| && h[..|h| - k] == LastN(MAX_ROLLBACK_DEPTH + 1 - k, base))
            && (k > MAX_ROLLBACK_DEPTH ==> k >= |h| && h[..1] == [added[k - MAX_ROLLBACK_DEPTH - 1]])
  {
  }

  lemma SplitTimeline(after: EngineState, s: EngineState, k: nat)
    ensures k <= MAX_ROLLBACK_DEPTH && Timeline(after) == LastN(MAX_ROLLBACK_DEPTH + 1 - k, Timeline(s)) ==>
              after.active == s.active && after.stack == LastN(MAX_ROLLBACK_DEPTH - k, s.stack)
    ensures |Timeline(after)| == 1 ==> after.stack == [] && after.active == Timeline(after)[0]
  {
    assert after.active == Timeline(after)[|after.stack|] && after.stack == Timeline(after)[..|after.stack|];
  }

  // ---------------------------------------------------------------------
  // The audit trail
  // ---------------------------------------------------------------------

  /** One event per operation, and no event is ever changed or dropped. */
  lemma {:induction false} TrailOnlyGrows(s: EngineState, ops: seq<Op>, k: nat)
    requires k <= |ops|
    ensures |Run(s, ops).trail| == |s.trail| + |ops|
    ensures Run(s, ops).trail[..|s.trail| + k] == Run(s, ops[..k]).trail
  {
    if ops == [] {
      assert s.trail[..|s.trail|] == s.trail && ops[..k] == ops;
    } else {
      var front := ops[..|ops| - 1];
      if k < |ops| {
        TrailOnlyGrows(s, front, k);
        assert front[..k] == ops[..k];
      } else {
        TrailOnlyGrows(s, front, |front|);
        assert ops[..k] == ops;
      }
    }
  }

  /** Which versions a document holds: the active one, if any, and those that can be returned to. */
  datatype Versions = Versions(active: Option<string>, stack: seq<string>)

  ghost function VersionsOf(s: EngineState): Versions
  {
    Versions(if s.active == map[] then None else Some(Version(s.active)), VersionList(s.stack))
  }

  /** What a reader who sees nothing but the audit trail works out. */
  ghost function Replay(trail: seq<Event>): Versions
  {
    if trail == [] then Versions(None, [])
    else
      var before := Replay(trail[..|trail| - 1]);
      match trail[|trail| - 1]
      case ActivationStaged(_, version, depth) =>
        var pushed := if before.active.Some? then before.stack + [before.active.value] else before.stack;
        Versions(Some(version), LastN(depth, pushed))
      case RolledBack(_, _, version, remaining) =>
        Versions(Some(version), if remaining <= |before.stack| then before.stack[..remaining] else before.stack)
      case RollbackSkipped(_, _) => before
  }

  ghost predicate NoEmptyPointers(s: EngineState)
  {
    && (s.active == map[] ==> s.stack == [])
    && forall i :: 0 <= i < |s.stack| ==> s.stack[i] != map[]
  }

  lemma {:induction false} PointersStayNonEmpty(ops: seq<Op>)
    ensures NoEmptyPointers(Run(DEFAULT, ops))
  {
    if ops != [] {
      PointersStayNonEmpty(ops[..|ops| - 1]);
      match ops[|ops| - 1]
      case StageOp(version, sha, ruleset, at) => assert "version" in NewPointer(version, sha, ruleset, at);
      case RollbackOp(_, _) =>
    }
  }

  lemma ReplayStage(s: EngineState, p: Pointer, at: string)
    requires NoEmptyPointers(s) && |s.stack| <= MAX_ROLLBACK_DEPTH && p != map[]
    requires Replay(s.trail) == VersionsOf(s)
    ensures Replay(Stage(s, p, at).trail) == VersionsOf(Stage(s, p, at))
  {
    var after, held := Stage(s, p, at), VersionsOf(s);
    assert after.trail[..|after.trail| - 1] == s.trail;
    VersionsOfPushed(s);
    assert Replay(after.trail).stack ==
           LastN(|Pushed(s)|, if held.active.Some? then held.stack + [held.active.value] else held.stack);
  }

  lemma VersionsOfPushed(s: EngineState)
    requires |s.stack| <= MAX_ROLLBACK_DEPTH
    ensures var held := VersionList(s.stack);
            VersionList(Pushed(s)) == LastN(|Pushed(s)|, if s.active == map[] then held else held + [Version(s.active)])
  {
    VersionListSnoc(s.stack, s.active);
    VersionListLast(MAX_ROLLBACK_DEPTH, s.stack + [s.active]);
  }

  lemma VersionListSnoc(stack: seq<Pointer>, p: Pointer)
    ensures VersionList(stack + [p]) == VersionList(stack) + [Version(p)]
  {
  }

  lemma VersionListLast(n: nat, stack: seq<Pointer>)
    ensures VersionList(LastN(n, stack)) == LastN(n, VersionList(stack))
  {
  }

  ghost function VersionList(stack: seq<Pointer>): (r: seq<string>)
    ensures |r| == |stack| && forall i :: 0 <= i < |r| ==> r[i] == Version(stack[i])
  {
    seq(|stack|, i requires 0 <= i < |stack| => Version(stack[i]))
  }

  lemma ReplayRollback(s: EngineState, trigger: string, at: string)
    requires NoEmptyPointers(s)
    requires Replay(s.trail) == VersionsOf(s)
    ensures Replay(Rollback(s, trigger, at).trail) == VersionsOf(Rollback(s, trigger, at))
  {
    var after := Rollback(s, trigger, at);
    assert after.trail[..|after.trail| - 1] == s.trail;
    if s.stack != [] {
      VersionListFront(s.stack);
    }
  }

  lemma VersionListFront(stack: seq<Pointer>)
    requires stack != []
    ensures VersionList(stack[..|stack| - 1]) == VersionList(stack)[..|stack| - 1]
  {
  }

  /** In every run from the default document the trail alone gives back every version held. */
  lemma {:induction false} TrailDeterminesState(ops: seq<Op>)
    ensures Replay(Run(DEFAULT, ops).trail) == VersionsOf(Run(DEFAULT, ops))
  {
    if ops != [] {
      var front := ops[..|ops| - 1];
      TrailDeterminesState(front);
      PointersStayNonEmpty(front);
      DepthStaysBounded(DEFAULT, front);
      match ops[|ops| - 1]
      case StageOp(version, sha, ruleset, at) =>
        var p := NewPointer(version, sha, ruleset, at);
        assert "version" in p;
        ReplayStage(Run(DEFAULT, front), p, at);
      case RollbackOp(trigger, at) => ReplayRollback(Run(DEFAULT, front), trigger, at);
    }
  }

  function DepthIn(e: Event): nat
  {
    match e
    case ActivationStaged(_, _, depth) => depth
    case RolledBack(_, _, _, remaining) => remaining
    case RollbackSkipped(_, _) => 0
  }

  /** The version the last event other than a skipped rollback names. */
  ghost function LastVersion(trail: seq<Event>): Option<string>
  {
    if trail == [] then None
    else
      match trail[|trail| - 1]
      case ActivationStaged(_, version, _) => Some(version)
      case RolledBack(_, _, version, _) => Some(version)
      case RollbackSkipped(_, _) => LastVersion(trail[..|trail| - 1])
  }

  lemma {:induction false} LastVersionIsReplayed(trail: seq<Event>)
    ensures LastVersion(trail) == Replay(trail).active
  {
    if trail != [] {
      LastVersionIsReplayed(trail[..|trail| - 1]);
    }
  }

  /** The last event gives the stack depth, the last event that is not a skip the active version. */
  lemma LastEventsTellTheState(ops: seq<Op>)
    ensures var s := Run(DEFAULT, ops);
            && (ops != [] ==> s.trail != [] && DepthIn(s.trail[|s.trail| - 1]) == |s.stack|)
            && LastVersion(s.trail) == VersionsOf(s).active
  {
    TrailDeterminesState(ops);
    LastVersionIsReplayed(Run(DEFAULT, ops).trail);
  }
}
