/** What each line of a manifest yields from where it stands, with no state carried along: the reader gives just that. */
module ManifestContext {
  import opened Options
  import opened PyText
  import opened ManifestParser

  type KeyLine = line: Line | line.Top? witness Top("", true, "", None)

  /** What a line contributes. */
  datatype Yield =
    | Silent
    | Fault(kind: ErrorKind)
    | Scalar(key: string, value: string)
    | Values(list: string, values: seq<string>)
    | Signal(signal: (string, string))

  /** The key line that a line after `before` stands below: the last one. */
  ghost function Header(before: seq<Line>): Option<KeyLine>
  {
    if before == [] then None
    else if before[|before| - 1].Top? then Some(before[|before| - 1])
    else Header(before[..|before| - 1])
  }

  ghost predicate BelowSignals(before: seq<Line>)
  {
    Header(before).Some? && Header(before).value.key == "signals"
  }

  /** The list it belongs to: that of the key line above, if nothing stands behind the colon there. */
  ghost function ListAbove(before: seq<Line>): Option<string>
  {
    var h := Header(before);
    if h.Some? && h.value.key in LIST_KEYS && h.value.blank then Some(h.value.key) else None
  }

  /** The mode of the signals: that of the last mode line below a signals key. */
  ghost function ModeAbove(before: seq<Line>): Option<string>
  {
    if before == [] then None
    else
      var (front, last) := (before[..|before| - 1], before[|before| - 1]);
      if last.Nested? && last.mode.Some? && BelowSignals(front) then last.mode else ModeAbove(front)
  }

  ghost function KeyYield(line: KeyLine): Yield
  {
    if line.key == "signals" || (line.key in LIST_KEYS && line.blank) then Silent
    else if line.key in LIST_KEYS then
      if line.items.Some? then Values(line.key, line.items.value) else Fault(NotAList(line.key))
    else if line.scalar != "" then Scalar(line.key, line.scalar)
    else Fault(EmptyScalar(line.key))
  }

  /** `mode` is the one set above the line. */
  ghost function SignalYield(mode: Option<string>, line: Line): Yield
    requires line.Nested?
  {
    if line.mode.Some? then (if mode in {None, line.mode} then Silent else Fault(MixedModes))
    else if line.signal.None? then Fault(MalformedSignal)
    else if mode.None? then Fault(SignalBeforeMode)
    else if line.signal.value.1 != "" then Signal(line.signal.value)
    else Fault(EmptySignal(line.signal.value.0))
  }

  ghost function EntryYield(list: Option<string>, line: Line): Yield
    requires line.Nested?
  {
    match list
    case None => Fault(UnexpectedIndent)
    case Some(key) =>
      match line.entry
      case None => Fault(MalformedEntry(key))
      case Some(v) => if v != "" then Values(key, [v]) else Fault(EmptyEntry(key))
  }

  /** What `line` yields below the lines `before`. */
  ghost function YieldOf(before: seq<Line>, line: Line): Yield
  {
    match line
    case Ignored => Silent
    case BadTop => Fault(MalformedTopLevel)
    case Top(_, _, _, _) => KeyYield(line)
    case Nested(_, _, _) =>
      if BelowSignals(before) then SignalYield(ModeAbove(before), line) else EntryYield(ListAbove(before), line)
  }

  /** What all lines yield, line by line. */
  ghost function Yields(lines: seq<Line>): (r: seq<Yield>)
    ensures |r| == |lines|
  {
    if lines == [] then []
    else Yields(lines[..|lines| - 1]) + [YieldOf(lines[..|lines| - 1], lines[|lines| - 1])]
  }

  // What the yields add up to.

  ghost function Faults(ys: seq<Yield>): seq<ParseError>
  {
    if ys == [] then []
    else
      var (front, last) := (Faults(ys[..|ys| - 1]), ys[|ys| - 1]);
      if last.Fault? then front + [ParseError(|ys|, last.kind)] else front
  }

  ghost function Signals(ys: seq<Yield>): seq<(string, string)>
  {
    if ys == [] then []
    else
      var (front, last) := (Signals(ys[..|ys| - 1]), ys[|ys| - 1]);
      if last.Signal? then front + [last.signal] else front
  }

  ghost function ValuesFor(ys: seq<Yield>, key: string): seq<string>
  {
    if ys == [] then []
    else
      var (front, last) := (ValuesFor(ys[..|ys| - 1], key), ys[|ys| - 1]);
      if last.Values? && last.list == key then front + last.values else front
  }

  /** The last value given to a key, if any. */
  ghost function LastScalar(ys: seq<Yield>, key: string): Option<string>
  {
    if ys == [] then None
    else
      var last := ys[|ys| - 1];
      if last.Scalar? && last.key == key then Some(last.value) else LastScalar(ys[..|ys| - 1], key)
  }

  ghost predicate AddsUp(ys: seq<Yield>, out: Parsed)
  {
    && out.errors == Faults(ys) && out.signals == Signals(ys) && out.lists.Keys == LIST_KEYS
    && (forall key <- LIST_KEYS :: out.lists[key] == ValuesFor(ys, key))
    && (forall key :: LastScalar(ys, key) == if key in out.scalars then Some(out.scalars[key]) else None)
  }

  // ---------------------------------------------------------------------
  // The state machine reads in context
  // ---------------------------------------------------------------------

  ghost predicate Stands(before: seq<Line>, st: State)
  {
    && (st.inSignals <==> BelowSignals(before)) && st.openList == ListAbove(before)
    && st.out.mode == ModeAbove(before)
  }

  lemma StepStands(before: seq<Line>, st: State, line: Line, lines: seq<Line>)
    requires Stands(before, st) && lines == before + [line]
    ensures Stands(lines, Step(st, |lines|, line))
  {
    assert lines[..|lines| - 1] == before && lines[|before|] == line;
  }

  /** One yield more. */
  ghost predicate Adds(before: Parsed, after: Parsed, no: nat, y: Yield)
  {
    && after.errors == before.errors + (if y.Fault? then [ParseError(no, y.kind)] else [])
    && after.signals == before.signals + (if y.Signal? then [y.signal] else [])
    && after.scalars == (if y.Scalar? then before.scalars[y.key := y.value] else before.scalars)
    && if y.Values? then
         y.list in LIST_KEYS && y.list in before.lists
         && after.lists == before.lists[y.list := before.lists[y.list] + y.values]
       else after.lists == before.lists
  }

  lemma KeyAdds(st: State, no: nat, line: KeyLine)
    requires st.out.lists.Keys == LIST_KEYS
    ensures Adds(st.out, TopLevelStep(st, no, line).out, no, KeyYield(line))
  {
  }

  lemma SignalAdds(st: State, no: nat, line: Line)
    requires line.Nested?
    ensures Adds(st.out, SignalsStep(st, no, line).out, no, SignalYield(st.out.mode, line))
  {
  }

  lemma EntryAdds(st: State, no: nat, line: Line)
    requires line.Nested? && !st.inSignals && st.out.lists.Keys == LIST_KEYS
    requires st.openList.Some? ==> st.openList.value in LIST_KEYS
    ensures Adds(st.out, Step(st, no, line).out, no, EntryYield(st.openList, line))
  {
  }

  lemma StepAdds(before: seq<Line>, st: State, no: nat, line: Line)
    requires Stands(before, st) && st.out.lists.Keys == LIST_KEYS
    ensures Adds(st.out, Step(st, no, line).out, no, YieldOf(before, line))
  {
    match line
    case Ignored =>
    case BadTop =>
    case Top(_, _, _, _) => KeyAdds(st, no, line);
    case Nested(_, _, _) =>
      if st.inSignals {
        SignalAdds(st, no, line);
      } else {
        EntryAdds(st, no, line);
      }
  }

  lemma AddKeepsSum(ys: seq<Yield>, y: Yield, all: seq<Yield>, before: Parsed, after: Parsed)
    requires AddsUp(ys, before) && Adds(before, after, |all|, y) && all == ys + [y]
    ensures AddsUp(all, after)
  {
    assert all[..|all| - 1] == ys && all[|ys|] == y;
  }

  /** Wherever the reader is, it stands where the lines above say and has what they yield. */
  lemma {:induction false} ReadsInContext(lines: seq<Line>)
    ensures var st := FoldLines(Step, START, 0, lines);
            Stands(lines, st) && AddsUp(Yields(lines), st.out)
  {
    if lines != [] {
      var front, last := lines[..|lines| - 1], lines[|lines| - 1];
      assert lines == front + [last];
      var st := FoldLines(Step, START, 0, front);
      ReadsInContext(front);
      FoldAppend(Step, START, 0, front, [last]);
      FoldHead(Step, st, |front|, last, []);
      StepStands(front, st, last, lines);
      StepAdds(front, st, |lines|, last);
      AddKeepsSum(Yields(front), YieldOf(front, last), Yields(lines), st.out, Step(st, |lines|, last).out);
    }
  }

  /**
   Any text is read as what its lines yield one by one, each from itself and
   the lines above it: the mode, the signals and list values in their order,
   the last value of every key, and the errors.
   */
  lemma ParseInContext(text: string)
    ensures var lines := MapSeq(Classify, SplitLines(text));
            Parse(text).mode == ModeAbove(lines) && AddsUp(Yields(lines), Parse(text))
  {
    var lines := MapSeq(Classify, SplitLines(text));
    FoldMap(ParseLine, Step, Classify, START, 0, SplitLines(text), lines);
    ReadsInContext(lines);
  }

  // ---------------------------------------------------------------------
  // Errors
  // ---------------------------------------------------------------------

  lemma {:induction false} YieldAt(lines: seq<Line>, i: nat)
    requires i < |lines|
    ensures Yields(lines)[i] == YieldOf(lines[..i], lines[i])
  {
    var front := lines[..|lines| - 1];
    if i < |front| {
      YieldAt(front, i);
      assert front[..i] == lines[..i];
    }
  }

  /** Each error carries the number of its line, and they are in the order of the lines. */
  lemma {:induction false} FaultsAreExact(ys: seq<Yield>, n: nat, kind: ErrorKind)
    ensures ParseError(n, kind) in Faults(ys) <==> 0 < n <= |ys| && ys[n - 1] == Fault(kind)
    ensures forall e <- Faults(ys) :: e.line <= |ys|
    ensures forall j, k :: 0 <= j < k < |Faults(ys)| ==> Faults(ys)[j].line < Faults(ys)[k].line
  {
    if ys != [] {
      FaultsAreExact(ys[..|ys| - 1], n, kind);
    }
  }

  /** `errors` are the faults of the lines where they stand, no other and none left out, in the order of the lines. */
  ghost predicate NameFaults(lines: seq<Line>, errors: seq<ParseError>)
  {
    && (forall j, k :: 0 <= j < k < |errors| ==> errors[j].line < errors[k].line)
    && forall n: nat, kind: ErrorKind ::
         ParseError(n, kind) in errors <==> 0 < n <= |lines| && YieldOf(lines[..n - 1], lines[n - 1]) == Fault(kind)
  }

  lemma FaultsAreNamed(lines: seq<Line>)
    ensures NameFaults(lines, Faults(Yields(lines)))
  {
    FaultsAreExact(Yields(lines), 0, UnexpectedIndent);
    forall n: nat, kind: ErrorKind
      ensures ParseError(n, kind) in Faults(Yields(lines)) <==>
              0 < n <= |lines| && YieldOf(lines[..n - 1], lines[n - 1]) == Fault(kind)
    {
      FaultsAreExact(Yields(lines), n, kind);
      if 0 < n <= |lines| {
        YieldAt(lines, n - 1);
      }
    }
  }

  /** The errors of any text, one by one. */
  lemma ErrorsNameTheirLines(text: string)
    ensures NameFaults(MapSeq(Classify, SplitLines(text)), Parse(text).errors)
  {
    ParseInContext(text);
    FaultsAreNamed(MapSeq(Classify, SplitLines(text)));
  }
}
