/** Reading back a rendered manifest: exactly when nothing is lost. */
module ManifestRoundTrip {
  import opened Options
  import opened PyText
  import opened ManifestParser
  import opened ManifestFactory

  /** A value that survives: clean, and not wrapped in matching quotes. */
  predicate Plain(v: string)
  {
    Clean(v) && !Wrapped(v)
  }

  ghost predicate AllClean(values: seq<string>)
  {
    forall v <- values :: Clean(v)
  }

  ghost predicate AllPlain(values: seq<string>)
  {
    forall v <- values :: Plain(v)
  }

  /** The condition on a manifest's values that the round trip turns on. */
  ghost predicate Faithful(m: Manifest)
  {
    && Plain(m.addonKey) && Plain(m.addonClass) && SingleLine(m.rulebookName)
    && AllPlain(m.pathRoots) && AllPlain(m.ownsSurfaces) && AllPlain(m.touchesSurfaces)
    && AllPlain(m.capabilitiesAny) && AllPlain(m.capabilitiesAll)
    && (forall s <- m.signals :: IsSignalKey(s.0) && Plain(s.1))
  }

  ghost function ScalarsOf(m: Manifest): map<string, string>
  {
    map["addon_key" := m.addonKey,
        "addon_class" := m.addonClass,
        "rulebook" := "rules." + m.rulebookName + ".md",
        "manifest_version" := "1"]
  }

  ghost function ListsOf(m: Manifest): map<string, seq<string>>
  {
    map["path_roots" := m.pathRoots,
        "owns_surfaces" := m.ownsSurfaces,
        "touches_surfaces" := m.touchesSurfaces,
        "capabilities_any" := m.capabilitiesAny,
        "capabilities_all" := m.capabilitiesAll]
  }

  /** What was rendered, in the parser's terms. */
  ghost function Meaning(m: Manifest): Parsed
  {
    Parsed(ScalarsOf(m), Some("any"), m.signals, ListsOf(m), [])
  }

  // ---------------------------------------------------------------------
  // The lines of a rendered manifest
  // ---------------------------------------------------------------------

  /** A joined list of no items still takes up a blank line. */
  ghost function OrBlank(lines: seq<string>): seq<string>
  {
    if lines == [] then [""] else lines
  }

  ghost function Block(header: string, values: seq<string>): seq<string>
  {
    [header] + OrBlank(Items(values))
  }

  ghost function OptBlock(header: string, values: seq<string>): seq<string>
  {
    if values == [] then [] else Block(header, values)
  }

  ghost function ScalarLines(m: Manifest): seq<string>
  {
    ["addon_key: " + m.addonKey,
     "addon_class: " + m.addonClass,
     "rulebook: rules." + m.rulebookName + ".md",
     "manifest_version: 1"]
  }

  ghost function SignalLines(m: Manifest): seq<string>
  {
    ["signals:", "  any:"] + OrBlank(SignalItems(m.signals))
  }

  ghost function ManifestLines(m: Manifest): seq<string>
  {
    ScalarLines(m)
    + (Block("path_roots:", m.pathRoots)
       + (Block("owns_surfaces:", m.ownsSurfaces)
          + (Block("touches_surfaces:", m.touchesSurfaces)
             + (OptBlock("capabilities_any:", m.capabilitiesAny)
                + (OptBlock("capabilities_all:", m.capabilitiesAll)
                   + SignalLines(m))))))
  }

  lemma JoinedBlock(lines: seq<string>)
    ensures Join("\n", lines) + "\n" == Unlines(OrBlank(lines))
  {
  }

  /** A header followed by a joined block. */
  lemma UnlinesHeader(header: string, lines: seq<string>, rest: seq<string>)
    ensures Unlines([header, Join("\n", lines)] + rest) == Unlines([header] + OrBlank(lines)) + Unlines(rest)
  {
    var a := [header, Join("\n", lines)];
    UnlinesAppend(a, rest);
    assert a[1..] == [Join("\n", lines)] && a[1..][1..] == [];
    UnlinesAppend([header], OrBlank(lines));
    JoinedBlock(lines);
  }

  /** The rendered list as it is joined, one element per joined block. */
  ghost function JoinedLines(m: Manifest): seq<string>
  {
    ScalarLines(m)
    + (["path_roots:", Join("\n", Items(m.pathRoots))]
       + (["owns_surfaces:", Join("\n", Items(m.ownsSurfaces))]
          + (["touches_surfaces:", Join("\n", Items(m.touchesSurfaces))]
             + (OptionalBlock("capabilities_any:", m.capabilitiesAny)
                + (OptionalBlock("capabilities_all:", m.capabilitiesAll)
                   + ["signals:", "  any:", Join("\n", SignalItems(m.signals))])))))
  }

  lemma RenderJoins(m: Manifest)
    ensures RenderManifest(m) == Unlines(JoinedLines(m))
  {
    var head := [
      "addon_key: " + m.addonKey,
      "addon_class: " + m.addonClass,
      "rulebook: rules." + m.rulebookName + ".md",
      "manifest_version: 1",
      "path_roots:",
      Join("\n", Items(m.pathRoots)),
      "owns_surfaces:",
      Join("\n", Items(m.ownsSurfaces)),
      "touches_surfaces:",
      Join("\n", Items(m.touchesSurfaces))
    ];
    var any := OptionalBlock("capabilities_any:", m.capabilitiesAny);
    var all := OptionalBlock("capabilities_all:", m.capabilitiesAll);
    var tail := ["signals:", "  any:", Join("\n", SignalItems(m.signals))];
    assert head + (any + all) + tail == JoinedLines(m);
    JoinIsUnlines(JoinedLines(m));
  }

  lemma UnlinesOptional(header: string, values: seq<string>, rest: seq<string>)
    ensures Unlines(OptionalBlock(header, values) + rest) == Unlines(OptBlock(header, values)) + Unlines(rest)
  {
    if values == [] {
      assert [] + rest == rest;
    } else {
      UnlinesHeader(header, Items(values), rest);
    }
  }

  lemma UnlinesSignals(m: Manifest)
    ensures Unlines(["signals:", "  any:", Join("\n", SignalItems(m.signals))]) == Unlines(SignalLines(m))
  {
    var joined := Join("\n", SignalItems(m.signals));
    UnlinesAppend(["signals:", "  any:"], [joined]);
    assert ["signals:", "  any:"] + [joined] == ["signals:", "  any:", joined];
    UnlinesAppend(["signals:", "  any:"], OrBlank(SignalItems(m.signals)));
    JoinedBlock(SignalItems(m.signals));
    assert Unlines([joined]) == joined + "\n" + Unlines([]);
  }

  /** The rendered text is exactly the manifest's lines. */
  lemma RenderedText(m: Manifest)
    ensures RenderManifest(m) == Unlines(ManifestLines(m))
  {
    RenderJoins(m);
    var j5 := ["signals:", "  any:", Join("\n", SignalItems(m.signals))];
    var j4 := OptionalBlock("capabilities_all:", m.capabilitiesAll) + j5;
    var j3 := OptionalBlock("capabilities_any:", m.capabilitiesAny) + j4;
    var j2 := ["touches_surfaces:", Join("\n", Items(m.touchesSurfaces))] + j3;
    var j1 := ["owns_surfaces:", Join("\n", Items(m.ownsSurfaces))] + j2;
    var j0 := ["path_roots:", Join("\n", Items(m.pathRoots))] + j1;
    UnlinesAppend(ScalarLines(m), j0);
    UnlinesHeader("path_roots:", Items(m.pathRoots), j1);
    UnlinesHeader("owns_surfaces:", Items(m.ownsSurfaces), j2);
    UnlinesHeader("touches_surfaces:", Items(m.touchesSurfaces), j3);
    UnlinesOptional("capabilities_any:", m.capabilitiesAny, j4);
    UnlinesOptional("capabilities_all:", m.capabilitiesAll, j5);
    UnlinesSignals(m);
    var l5 := SignalLines(m);
    var l4 := OptBlock("capabilities_all:", m.capabilitiesAll) + l5;
    var l3 := OptBlock("capabilities_any:", m.capabilitiesAny) + l4;
    var l2 := Block("touches_surfaces:", m.touchesSurfaces) + l3;
    var l1 := Block("owns_surfaces:", m.ownsSurfaces) + l2;
    UnlinesAppend(OptBlock("capabilities_all:", m.capabilitiesAll), l5);
    UnlinesAppend(OptBlock("capabilities_any:", m.capabilitiesAny), l4);
    UnlinesAppend(Block("touches_surfaces:", m.touchesSurfaces), l3);
    UnlinesAppend(Block("owns_surfaces:", m.ownsSurfaces), l2);
    UnlinesAppend(Block("path_roots:", m.pathRoots), l1);
    UnlinesAppend(ScalarLines(m), Block("path_roots:", m.pathRoots) + l1);
  }

  // ---------------------------------------------------------------------
  // How each kind of line is read
  // ---------------------------------------------------------------------

  lemma SpanIs(accept: char -> bool, s: string, m: nat)
    requires m <= |s| && (forall k :: 0 <= k < m ==> accept(s[k])) && (m < |s| ==> !accept(s[m]))
    ensures Span(accept, s, 0) == m
  {
  }

  lemma SpanOf(accept: char -> bool, key: string, rest: string)
    requires forall c <- key :: accept(c)
    requires rest != "" ==> !accept(rest[0])
    ensures Span(accept, key + rest, 0) == |key|
  {
    forall k | 0 <= k < |key|
      ensures accept((key + rest)[k])
    {
      assert key[k] in key;
    }
    SpanIs(accept, key + rest, |key|);
  }

  predicate IsKey(key: string)
  {
    key != "" && IsKeyStart(key[0]) && forall c <- key :: IsKeyChar(c)
  }

  lemma StripPadded(v: string)
    requires Clean(v)
    ensures LStrip(" " + v) == v && Strip(" " + v) == v
  {
    StripTrims(v);
    assert (" " + v)[1..] == v;
  }

  lemma KeyedText(accept: char -> bool, key: string, tail: string)
    requires (forall c <- key :: accept(c)) && !accept(':')
    ensures var raw := key + ":" + tail;
            && Span(accept, raw, 0) == |key| && raw[|key|] == ':'
            && raw[..|key|] == key && raw[|key| + 1..] == tail
  {
    SpanOf(accept, key, ":" + tail);
    assert key + ":" + tail == key + (":" + tail);
  }

  lemma TopMatch(raw: string, key: string, tail: string, val: string)
    requires IsKey(key) && raw == key + ":" + tail && val == Strip(tail)
    ensures MatchTopLevel(raw) == Some((key, val))
    ensures !IsSpace(raw[0]) && raw[0] != '#'
  {
    KeyedText(IsKeyChar, key, tail);
    assert raw[0] == key[0];
  }

  lemma ClassifyAsTop(raw: string, key: string, val: string)
    requires raw != "" && !IsSpace(raw[0]) && raw[0] != '#'
    requires MatchTopLevel(raw) == Some((key, val))
    ensures Classify(raw) == Top(key, val == "", Unquote(val), ParseInlineList(val))
  {
    StripKeepsHead(raw, 0);
    assert Classify(raw) == ClassifyTop(raw);
  }

  /** A top-level line is read as its key and its stripped value. */
  lemma TopShape(raw: string, key: string, tail: string, val: string)
    requires raw != "" && raw == key + ":" + tail && IsKey(key) && val == Strip(tail)
    ensures Classify(raw) == Top(key, val == "", Unquote(val), ParseInlineList(val))
  {
    TopMatch(raw, key, tail, val);
    ClassifyAsTop(raw, key, val);
  }

  lemma ItemShape(v: string)
    requires Clean(v)
    ensures Classify(Item(v)).Nested? && Classify(Item(v)).entry == Some(Unquote(v))
  {
    var raw := Item(v);
    StripKeepsHead(raw, 2);
    assert raw[3..] == " " + v;
    StripPadded(v);
  }

  /** What one classified signal line gives back: one pair, or nothing when the line is rejected. */
  ghost function ReadSignal(line: Line): seq<(string, string)>
  {
    if !line.Nested? || line.signal.None? || line.signal.value.1 == "" then [] else [line.signal.value]
  }

  lemma SignalShape(s: (string, string))
    ensures Classify(SignalItem(s)).Nested? && Classify(SignalItem(s)).mode == None
    ensures Classify(SignalItem(s)).signal == UnquoteSignal(MatchSignal(SignalItem(s)))
  {
    var raw := SignalItem(s);
    StripKeepsHead(raw, 4);
    assert raw[2..5][2] == '-';
  }

  lemma MatchAsSignal(raw: string, body: string, key: string, val: string)
    requires |raw| >= 5 && Indented(raw, 4) && raw[4] == '-' && LStrip(raw[5..]) == body
    requires 0 < |key| < |body| && Span(IsSignalChar, body, 0) == |key| && body[|key|] == ':'
    requires body[..|key|] == key && Strip(body[|key| + 1..]) == val
    ensures MatchSignal(raw) == Some((key, val))
  {
  }

  lemma SignalBody(raw: string, key: string, val: string, body: string)
    requires IsSignalKey(key) && raw == SignalItem((key, val)) && body == key + ":" + (" " + val)
    ensures |raw| >= 5 && Indented(raw, 4) && raw[4] == '-' && LStrip(raw[5..]) == body
  {
    assert raw[5..] == " " + body;
    assert body[0] == key[0] && key[0] in key;
    assert (" " + body)[1..] == body;
  }

  lemma SignalMatch(raw: string, key: string, val: string)
    requires IsSignalKey(key) && Clean(val) && raw == SignalItem((key, val))
    ensures MatchSignal(raw) == Some((key, val))
  {
    var tail := " " + val;
    var body := key + ":" + tail;
    SignalBody(raw, key, val, body);
    KeyedText(IsSignalChar, key, tail);
    StripPadded(val);
    MatchAsSignal(raw, body, key, val);
  }

  lemma UnquoteUnchanged(v: string)
    requires Clean(v)
    ensures Unquote(v) == v <==> !Wrapped(v)
  {
  }

  /** How a rendered signal line is classified, in terms of what it was rendered from. */
  lemma SignalClass(s: (string, string), line: Line)
    requires line == Classify(SignalItem(s)) && Clean(s.1)
    ensures line.Nested? && line.mode == None
    ensures line.signal.Some? ==> IsSignalKey(line.signal.value.0)
    ensures IsSignalKey(s.0) ==> line.signal == Some((s.0, Unquote(s.1)))
  {
    SignalShape(s);
    if IsSignalKey(s.0) {
      SignalMatch(SignalItem(s), s.0, s.1);
    }
  }

  lemma ReadBack(line: Line, key: string, v: string, u: string)
    requires line.Nested? && (line.signal.Some? ==> IsSignalKey(line.signal.value.0))
    requires IsSignalKey(key) ==> line.signal == Some((key, u))
    requires v != ""
    ensures ReadSignal(line) == [(key, v)] <==> IsSignalKey(key) && u == v
  {
  }

  /** A signal line gives back its own pair exactly when the key is well formed and the value unquoted. */
  lemma SignalSurvives(key: string, v: string, line: Line)
    requires Clean(v) && line == Classify(SignalItem((key, v)))
    ensures line.Nested? && line.mode == None
    ensures ReadSignal(line) == [(key, v)] <==> IsSignalKey(key) && Plain(v)
  {
    SignalClass((key, v), line);
    UnquoteUnchanged(v);
    ReadBack(line, key, v, Unquote(v));
  }

  ghost function ReadSignals(lines: seq<Line>): seq<(string, string)>
  {
    if lines == [] then [] else ReadSignal(lines[0]) + ReadSignals(lines[1..])
  }

  lemma {:induction false} ReadSignalsIsShort(lines: seq<Line>)
    ensures |ReadSignals(lines)| <= |lines|
  {
    if lines != [] {
      ReadSignalsIsShort(lines[1..]);
    }
  }

  /** Reading back as many pairs as there were lines means every line gave back its own. */
  lemma {:induction false} AllReadBack(lines: seq<Line>, signals: seq<(string, string)>)
    requires |lines| == |signals|
    ensures ReadSignals(lines) == signals <==> forall k :: 0 <= k < |lines| ==> ReadSignal(lines[k]) == [signals[k]]
  {
    if lines != [] {
      var head, rest := ReadSignal(lines[0]), lines[1..];
      AllReadBack(rest, signals[1..]);
      ReadSignalsIsShort(rest);
      assert signals == [signals[0]] + signals[1..];
      if ReadSignals(lines) == signals {
        assert head == [signals[0]];
        assert ReadSignals(rest) == signals[1..];
        forall k | 0 <= k < |lines|
          ensures ReadSignal(lines[k]) == [signals[k]]
        {
          if k > 0 {
            assert lines[k] == rest[k - 1] && signals[k] == signals[1..][k - 1];
          }
        }
      }
    }
  }

  /** The values that are not empty. */
  ghost function NonEmpty(values: seq<string>): seq<string>
  {
    if values == [] then [] else (if values[0] == "" then [] else [values[0]]) + NonEmpty(values[1..])
  }

  lemma {:induction false} NonEmptyIsShort(values: seq<string>)
    ensures |NonEmpty(values)| <= |values|
    ensures |NonEmpty(values)| == |values| ==> NonEmpty(values) == values
    ensures (forall v <- values :: v != "") ==> NonEmpty(values) == values
  {
    if values != [] {
      NonEmptyIsShort(values[1..]);
      assert values == [values[0]] + values[1..];
      assert values[0] in values && forall v <- values[1..] :: v in values;
    }
  }

  ghost function Unquoted(values: seq<string>): seq<string>
  {
    seq(|values|, i requires 0 <= i < |values| => Unquote(values[i]))
  }

  /** A list comes back unchanged exactly when none of its values is wrapped in quotes. */
  lemma ValuesSurvive(values: seq<string>)
    requires AllClean(values)
    ensures NonEmpty(Unquoted(values)) == values <==> AllPlain(values)
    ensures AllPlain(values) ==> Unquoted(values) == values
  {
    NonEmptyIsShort(Unquoted(values));
    forall k | 0 <= k < |values|
      ensures Unquoted(values)[k] == values[k] <==> Plain(values[k])
    {
      UnquoteUnchanged(values[k]);
    }
    if AllPlain(values) {
      assert Unquoted(values) == values;
    }
    if NonEmpty(Unquoted(values)) == values {
      assert Unquoted(values) == values;
      forall v | v in values
        ensures Plain(v)
      {
        var k :| 0 <= k < |values| && values[k] == v;
      }
    }
  }

  // ---------------------------------------------------------------------
  // How each block of classified lines is read
  // ---------------------------------------------------------------------

  ghost function Run(st: State, no: nat, lines: seq<Line>): State
  {
    FoldLines(Step, st, no, lines)
  }

  /** The state without its error list. */
  ghost function Quiet(st: State): State
  {
    st.(out := st.out.(errors := []))
  }

  ghost function PutScalar(st: State, key: string, v: string): State
  {
    var closed := st.(inSignals := false, openList := None);
    if v == "" then closed else closed.(out := closed.out.(scalars := closed.out.scalars[key := v]))
  }

  lemma StepScalar(st: State, no: nat, line: Line)
    requires line.Top? && line.key != "signals" && line.key !in LIST_KEYS
    ensures Quiet(Step(st, no, line)) == Quiet(PutScalar(st, line.key, line.scalar))
    ensures line.scalar != "" ==> Step(st, no, line) == PutScalar(st, line.key, line.scalar)
  {
  }

  ghost predicate ListOpen(st: State, key: string)
  {
    !st.inSignals && st.openList == Some(key) && key in st.out.lists
  }

  lemma ExtendTwice(st: State, key: string, a: seq<string>, b: seq<string>)
    requires key in st.out.lists
    ensures Extend(Extend(st, key, a), key, b) == Extend(st, key, a + b)
    ensures Extend(st, key, []) == st
  {
    assert st.out.lists[key] + a + b == st.out.lists[key] + (a + b);
    assert st.out.lists[key] + [] == st.out.lists[key];
    assert st.out.lists[key := st.out.lists[key]] == st.out.lists;
  }

  ghost predicate IsItem(line: Line, value: string)
  {
    line.Nested? && line.entry == Some(value)
  }

  lemma StepItem(st: State, no: nat, line: Line, key: string, value: string)
    requires IsItem(line, value) && ListOpen(st, key)
    ensures Quiet(Step(st, no, line)) == Quiet(Extend(st, key, NonEmpty([value])))
    ensures value != "" ==> Step(st, no, line) == Extend(st, key, [value])
  {
    ExtendTwice(st, key, [], []);
    assert NonEmpty([value]) == if value == "" then [] else [value];
  }

  lemma QuietExtend(s: State, t: State, key: string, a: seq<string>, b: seq<string>)
    requires key in t.out.lists && Quiet(s) == Quiet(Extend(t, key, a))
    ensures key in s.out.lists && Quiet(Extend(s, key, b)) == Quiet(Extend(t, key, a + b))
  {
    ExtendTwice(t, key, a, b);
    assert s.out.lists == Extend(t, key, a).out.lists;
  }

  /** List items extend the open list with their non-empty values. */
  lemma {:induction false} ItemsRun(st: State, no: nat, key: string, lines: seq<Line>, values: seq<string>)
    requires ListOpen(st, key) && |lines| == |values|
    requires forall k :: 0 <= k < |lines| ==> IsItem(lines[k], values[k])
    ensures Quiet(Run(st, no, lines)) == Quiet(Extend(st, key, NonEmpty(values)))
    ensures (forall v <- values :: v != "") ==> Run(st, no, lines) == Extend(st, key, values)
    decreases |lines|
  {
    if lines == [] {
      ExtendTwice(st, key, [], []);
    } else {
      StepItem(st, no + 1, lines[0], key, values[0]);
      var next := Step(st, no + 1, lines[0]);
      assert Quiet(next).openList == next.openList && Quiet(next).inSignals == next.inSignals;
      QuietExtend(next, st, key, NonEmpty([values[0]]), NonEmpty(values[1..]));
      ItemsRun(next, no + 1, key, lines[1..], values[1..]);
      FoldHead(Step, st, no, lines[0], lines[1..]);
      assert lines == [lines[0]] + lines[1..];
      assert values == [values[0]] + values[1..] && values[0] in values && forall v <- values[1..] :: v in values;
      assert NonEmpty(values) == NonEmpty([values[0]]) + NonEmpty(values[1..]);
      ExtendTwice(st, key, [values[0]], values[1..]);
    }
  }

  /** The state below the header of an empty list block. */
  ghost function Opened(st: State, key: string): State
  {
    st.(inSignals := false, openList := Some(key))
  }

  ghost predicate IsHeader(line: Line, key: string)
  {
    line.Top? && line.key == key && line.blank
  }

  /** A header and its items, or the blank line that stands for no items. */
  ghost predicate IsBlock(lines: seq<Line>, key: string, values: seq<string>)
  {
    && lines != [] && IsHeader(lines[0], key)
    && (values == [] ==> lines[1..] == [Ignored])
    && (values != [] ==> |lines| == |values| + 1 && forall k :: 0 <= k < |values| ==> IsItem(lines[k + 1], values[k]))
  }

  lemma BlockRun(st: State, no: nat, lines: seq<Line>, key: string, values: seq<string>)
    requires key in LIST_KEYS && key != "signals" && key in st.out.lists && IsBlock(lines, key, values)
    ensures Quiet(Run(st, no, lines)) == Quiet(Extend(Opened(st, key), key, NonEmpty(values)))
    ensures (forall v <- values :: v != "") ==> Run(st, no, lines) == Extend(Opened(st, key), key, values)
  {
    var below := Opened(st, key);
    assert lines == [lines[0]] + lines[1..];
    FoldHead(Step, st, no, lines[0], lines[1..]);
    assert Step(st, no + 1, lines[0]) == below;
    if values == [] {
      FoldHead(Step, below, no + 1, Ignored, []);
      assert lines[1..] == [Ignored];
      ExtendTwice(below, key, [], []);
    } else {
      ItemsRun(below, no + 1, key, lines[1..], values);
    }
  }

  ghost function PutSignals(st: State, signals: seq<(string, string)>): State
  {
    st.(out := st.out.(signals := st.out.signals + signals))
  }

  ghost predicate IsSignalLine(line: Line)
  {
    line.Nested? && line.mode == None
  }

  lemma StepSignal(st: State, no: nat, line: Line)
    requires IsSignalLine(line) && st.inSignals && st.out.mode.Some?
    ensures Quiet(Step(st, no, line)) == Quiet(PutSignals(st, ReadSignal(line)))
    ensures ReadSignal(line) != [] ==> Step(st, no, line) == PutSignals(st, ReadSignal(line))
  {
    assert st.out.signals + [] == st.out.signals;
  }

  lemma PutTwice(st: State, a: seq<(string, string)>, b: seq<(string, string)>)
    ensures PutSignals(PutSignals(st, a), b) == PutSignals(st, a + b)
    ensures PutSignals(st, []) == st
  {
    assert st.out.signals + a + b == st.out.signals + (a + b);
    assert st.out.signals + [] == st.out.signals;
  }

  lemma QuietSignals(s: State, t: State, a: seq<(string, string)>, b: seq<(string, string)>)
    requires Quiet(s) == Quiet(PutSignals(t, a))
    ensures Quiet(PutSignals(s, b)) == Quiet(PutSignals(t, a + b))
  {
    assert s.out.signals == t.out.signals + a;
    PutTwice(t, a, b);
  }

  /** Signal items add the pairs that survive, in order. */
  lemma {:induction false} SignalsRun(st: State, no: nat, lines: seq<Line>)
    requires st.inSignals && st.out.mode.Some? && forall line <- lines :: IsSignalLine(line)
    ensures Quiet(Run(st, no, lines)) == Quiet(PutSignals(st, ReadSignals(lines)))
    ensures (forall line <- lines :: ReadSignal(line) != []) ==> Run(st, no, lines) == PutSignals(st, ReadSignals(lines))
    decreases |lines|
  {
    if lines == [] {
      PutTwice(st, [], []);
    } else {
      var line, rest := lines[0], lines[1..];
      assert lines == [line] + rest && forall l <- rest :: l in lines;
      FoldHead(Step, st, no, line, rest);
      StepSignal(st, no + 1, line);
      var next := Step(st, no + 1, line);
      assert Quiet(next).inSignals == next.inSignals && Quiet(next).out.mode == next.out.mode;
      QuietSignals(next, st, ReadSignal(line), ReadSignals(rest));
      PutTwice(st, ReadSignal(line), ReadSignals(rest));
      SignalsRun(next, no + 1, rest);
    }
  }

  ghost function InAny(st: State): State
  {
    st.(out := st.out.(mode := Some("any")), inSignals := true, openList := None)
  }

  ghost predicate IsSignalsBlock(lines: seq<Line>, items: seq<Line>)
  {
    && |lines| >= 2 && IsHeader(lines[0], "signals")
    && lines[1].Nested? && lines[1].mode == Some("any")
    && lines[2..] == (if items == [] then [Ignored] else items)
    && forall line <- items :: IsSignalLine(line)
  }

  lemma SignalsBlockRun(st: State, no: nat, lines: seq<Line>, items: seq<Line>)
    requires st.out.mode.None? && IsSignalsBlock(lines, items)
    ensures Quiet(Run(st, no, lines)) == Quiet(PutSignals(InAny(st), ReadSignals(items)))
    ensures (forall line <- items :: ReadSignal(line) != []) ==>
              Run(st, no, lines) == PutSignals(InAny(st), ReadSignals(items))
  {
    var below := st.(inSignals := true, openList := None);
    assert lines == [lines[0]] + ([lines[1]] + lines[2..]);
    FoldHead(Step, st, no, lines[0], [lines[1]] + lines[2..]);
    assert Step(st, no + 1, lines[0]) == below;
    FoldHead(Step, below, no + 1, lines[1], lines[2..]);
    assert Step(below, no + 2, lines[1]) == InAny(st);
    if items == [] {
      FoldHead(Step, InAny(st), no + 2, Ignored, []);
      PutTwice(InAny(st), [], []);
    } else {
      SignalsRun(InAny(st), no + 2, items);
    }
  }

  // ---------------------------------------------------------------------
  // The whole manifest
  // ---------------------------------------------------------------------

  ghost predicate IsScalar(line: Line, key: string, v: string)
  {
    line.Top? && line.key == key && line.scalar == v
  }

  /** Under the classifier `c` the block below `raw` reads as `read`. */
  ghost predicate ReadsBlock(c: string -> Line, raw: string, key: string, values: seq<string>, read: seq<string>)
  {
    && IsHeader(c(raw), key) && c("") == Ignored
    && |read| == |values| && forall k :: 0 <= k < |values| ==> IsItem(c(Item(values[k])), read[k])
  }

  /** Under the classifier `c` exactly the `good` signals read back as themselves. */
  ghost predicate ReadsSignals(c: string -> Line, signals: seq<(string, string)>, good: ((string, string)) -> bool)
  {
    && IsHeader(c("signals:"), "signals") && c("") == Ignored
    && c("  any:").Nested? && c("  any:").mode == Some("any")
    && forall k :: 0 <= k < |signals| ==>
         && IsSignalLine(c(SignalItem(signals[k])))
         && (ReadSignal(c(SignalItem(signals[k]))) == [signals[k]] <==> good(signals[k]))
  }

  lemma BlockClasses(c: string -> Line, raw: string, key: string, values: seq<string>, read: seq<string>)
    requires ReadsBlock(c, raw, key, values, read)
    ensures IsBlock(MapSeq(c, Block(raw, values)), key, read)
  {
    var lines := MapSeq(c, Block(raw, values));
    assert lines[0] == c(raw);
    if values == [] {
      assert lines[1..] == [Ignored];
    } else {
      forall k | 0 <= k < |read|
        ensures IsItem(lines[k + 1], read[k])
      {
        assert Block(raw, values)[k + 1] == Item(values[k]);
      }
    }
  }

  lemma SignalsBlockClasses(c: string -> Line, m: Manifest, good: ((string, string)) -> bool, items: seq<Line>)
    requires ReadsSignals(c, m.signals, good) && items == MapSeq(c, SignalItems(m.signals))
    ensures IsSignalsBlock(MapSeq(c, SignalLines(m)), items)
  {
    var lines := MapSeq(c, SignalLines(m));
    assert lines[2..] == (if items == [] then [Ignored] else items);
  }

  lemma SignalClasses(c: string -> Line, m: Manifest, good: ((string, string)) -> bool, items: seq<Line>)
    requires ReadsSignals(c, m.signals, good) && items == MapSeq(c, SignalItems(m.signals))
    ensures ReadSignals(items) == m.signals <==> forall s <- m.signals :: good(s)
  {
    AllReadBack(items, m.signals);
    assert forall k :: 0 <= k < |items| ==> items[k] == c(SignalItem(m.signals[k]));
    if forall k :: 0 <= k < |items| ==> ReadSignal(items[k]) == [m.signals[k]] {
      forall s | s in m.signals
        ensures good(s)
      {
        var k :| 0 <= k < |m.signals| && m.signals[k] == s;
        assert ReadSignal(items[k]) == [m.signals[k]];
      }
    }
  }

  // What the real classifier does.

  lemma ScalarClass(raw: string, key: string, v: string, u: string)
    requires IsKey(key) && Clean(v) && raw == key + ": " + v && u == Unquote(v)
    ensures IsScalar(Classify(raw), key, u)
  {
    StripPadded(v);
    assert raw == key + ":" + (" " + v);
    TopShape(raw, key, " " + v, v);
  }

  lemma HeaderClass(raw: string, key: string)
    requires IsKey(key) && raw == key + ":"
    ensures IsHeader(Classify(raw), key)
  {
    assert raw == key + ":" + "";
    TopShape(raw, key, "", "");
  }

  lemma BlankClass()
    ensures Classify("") == Ignored
  {
  }

  lemma AnyClass(raw: string)
    requires |raw| == 6 && raw[0] == ' ' && raw[1] == ' ' && raw[2] == 'a' && raw[2..5] == "any" && raw[5] == ':'
    ensures Classify(raw).Nested? && Classify(raw).mode == Some("any")
  {
    StripKeepsHead(raw, 2);
    assert raw[6..] == "";
  }

  /** `c` is the parser's classifier; the trigger keeps its definition out of proofs that do not mention it. */
  ghost predicate Mirrors(c: string -> Line)
  {
    forall raw {:trigger Classify(raw)} :: c(raw) == Classify(raw)
  }

  lemma ClassifyReadsBlock(c: string -> Line, raw: string, key: string, values: seq<string>) returns (read: seq<string>)
    requires Mirrors(c) && IsKey(key) && raw == key + ":" && AllClean(values)
    ensures ReadsBlock(c, raw, key, values, read) && read == Unquoted(values)
    ensures NonEmpty(read) == values <==> AllPlain(values)
  {
    read := Unquoted(values);
    ClassifyHeader(c, raw, key);
    ClassifyBlank(c, "");
    forall k | 0 <= k < |values|
      ensures IsItem(c(Item(values[k])), read[k])
    {
      ItemShape(values[k]);
      assert c(Item(values[k])) == Classify(Item(values[k]));
    }
    ValuesSurvive(values);
  }

  ghost predicate GoodSignal(s: (string, string))
  {
    IsSignalKey(s.0) && Plain(s.1)
  }

  lemma GoodSignalReadsBack(s: (string, string), good: bool, line: Line)
    requires Clean(s.1) && line == Classify(SignalItem(s)) && good == GoodSignal(s)
    ensures IsSignalLine(line)
    ensures ReadSignal(line) == [s] <==> good
  {
    SignalSurvives(s.0, s.1, line);
    assert s == (s.0, s.1);
  }

  lemma ClassifyReadsSignal(c: string -> Line, s: (string, string))
    requires Mirrors(c) && Clean(s.1)
    ensures IsSignalLine(c(SignalItem(s)))
    ensures ReadSignal(c(SignalItem(s))) == [s] <==> GoodSignal(s)
  {
    GoodSignalReadsBack(s, GoodSignal(s), Classify(SignalItem(s)));
  }

  lemma ClassifyHeader(c: string -> Line, raw: string, key: string)
    requires Mirrors(c) && IsKey(key) && raw == key + ":"
    ensures IsHeader(c(raw), key)
  {
    HeaderClass(raw, key);
  }

  lemma ClassifyBlank(c: string -> Line, raw: string)
    requires Mirrors(c) && raw == ""
    ensures c(raw) == Ignored
  {
    BlankClass();
  }

  lemma ClassifyAny(c: string -> Line, raw: string)
    requires Mirrors(c) && raw == "  any:"
    ensures c(raw).Nested? && c(raw).mode == Some("any")
  {
    AnyClass(raw);
  }

  lemma ClassifyReadsSignals(c: string -> Line, signals: seq<(string, string)>)
    requires Mirrors(c) && forall s <- signals :: Clean(s.1)
    ensures ReadsSignals(c, signals, GoodSignal)
  {
    ClassifyHeader(c, "signals:", "signals");
    ClassifyBlank(c, "");
    ClassifyAny(c, "  any:");
    forall k | 0 <= k < |signals|
      ensures IsSignalLine(c(SignalItem(signals[k])))
      ensures ReadSignal(c(SignalItem(signals[k]))) == [signals[k]] <==> GoodSignal(signals[k])
    {
      ClassifyReadsSignal(c, signals[k]);
    }
  }

  // Reading the blocks one after the other.

  /** The unquoted values of a manifest. */
  datatype Reading = Reading(
    key: string,
    class_: string,
    book: string,
    roots: seq<string>,
    owns: seq<string>,
    touches: seq<string>,
    any: seq<string>,
    all: seq<string>)

  ghost predicate NoBlanks(values: seq<string>)
  {
    forall v <- values :: v != ""
  }

  ghost predicate NothingEmpty(r: Reading)
  {
    && r.key != "" && r.class_ != "" && r.book != ""
    && NoBlanks(r.roots) && NoBlanks(r.owns) && NoBlanks(r.touches) && NoBlanks(r.any) && NoBlanks(r.all)
  }

  /** Equal states; up to the error list when the comparison is not exact. */
  ghost predicate Same(s: State, t: State, exact: bool)
  {
    if exact then s == t else Quiet(s) == Quiet(t)
  }

  /** The five lists exist and no signals mode has been read. */
  ghost predicate Fresh(st: State)
  {
    st.out.lists.Keys == LIST_KEYS && st.out.mode.None?
  }

  lemma ScalarSame(s: State, t: State, exact: bool, no: nat, line: Line, key: string, v: string, rest: seq<Line>)
    requires Same(s, t, exact) && IsScalar(line, key, v) && key != "signals" && key !in LIST_KEYS
    requires exact ==> v != ""
    ensures Same(Run(s, no, [line]), PutScalar(t, key, v), exact)
    ensures Run(s, no, [line] + rest) == Run(Run(s, no, [line]), no + 1, rest)
  {
    FoldHead(Step, s, no, line, []);
    FoldAppend(Step, s, no, [line], rest);
    StepScalar(s, no + 1, line);
  }

  ghost function PutScalars(st: State, r: Reading): State
  {
    PutScalar(PutScalar(PutScalar(PutScalar(
      st, "addon_key", r.key), "addon_class", r.class_), "rulebook", r.book), "manifest_version", "1")
  }

  ghost predicate AreScalars(lines: seq<Line>, r: Reading)
  {
    && |lines| == 4
    && IsScalar(lines[0], "addon_key", r.key) && IsScalar(lines[1], "addon_class", r.class_)
    && IsScalar(lines[2], "rulebook", r.book) && IsScalar(lines[3], "manifest_version", "1")
  }

  lemma ScalarsSame(st: State, exact: bool, no: nat, lines: seq<Line>, r: Reading)
    requires AreScalars(lines, r) && (exact ==> NothingEmpty(r))
    ensures Same(Run(st, no, lines), PutScalars(st, r), exact)
  {
    var a, b, c, d := lines[0], lines[1], lines[2], lines[3];
    assert lines == [a] + ([b] + ([c] + ([d] + [])));
    ScalarSame(st, st, exact, no, a, "addon_key", r.key, [b] + ([c] + ([d] + [])));
    var s1, t1 := Run(st, no, [a]), PutScalar(st, "addon_key", r.key);
    ScalarSame(s1, t1, exact, no + 1, b, "addon_class", r.class_, [c] + ([d] + []));
    var s2, t2 := Run(s1, no + 1, [b]), PutScalar(t1, "addon_class", r.class_);
    ScalarSame(s2, t2, exact, no + 2, c, "rulebook", r.book, [d] + []);
    var s3, t3 := Run(s2, no + 2, [c]), PutScalar(t2, "rulebook", r.book);
    ScalarSame(s3, t3, exact, no + 3, d, "manifest_version", "1", []);
  }

  ghost function PutBlock(st: State, key: string, values: seq<string>): State
  {
    Extend(Opened(st, key), key, NonEmpty(values))
  }

  lemma BlockSame(s: State, t: State, exact: bool, no: nat, lines: seq<Line>, key: string, values: seq<string>,
                  rest: seq<Line>)
    requires Same(s, t, exact) && Fresh(t) && key in LIST_KEYS && key != "signals"
    requires IsBlock(lines, key, values) && (exact ==> NoBlanks(values))
    ensures Same(Run(s, no, lines), PutBlock(t, key, values), exact)
    ensures Fresh(PutBlock(t, key, values))
    ensures Run(s, no, lines + rest) == Run(Run(s, no, lines), no + |lines|, rest)
  {
    assert s.out.lists == t.out.lists;
    BlockRun(s, no, lines, key, values);
    NonEmptyIsShort(values);
    FoldAppend(Step, s, no, lines, rest);
  }

  /** A block that was left out changes nothing. */
  ghost function PutOptional(st: State, key: string, values: seq<string>): State
  {
    if values == [] then st else PutBlock(st, key, values)
  }

  lemma OptionalSame(s: State, t: State, exact: bool, no: nat, lines: seq<Line>, key: string, values: seq<string>,
                     rest: seq<Line>)
    requires Same(s, t, exact) && Fresh(t) && key in LIST_KEYS && key != "signals"
    requires if values == [] then lines == [] else IsBlock(lines, key, values) && (exact ==> NoBlanks(values))
    ensures Same(Run(s, no, lines), PutOptional(t, key, values), exact)
    ensures Fresh(PutOptional(t, key, values))
    ensures Run(s, no, lines + rest) == Run(Run(s, no, lines), no + |lines|, rest)
  {
    if values == [] {
      FoldAppend(Step, s, no, lines, rest);
    } else {
      BlockSame(s, t, exact, no, lines, key, values, rest);
    }
  }

  lemma SignalsSame(s: State, t: State, exact: bool, no: nat, lines: seq<Line>, items: seq<Line>)
    requires Same(s, t, exact) && Fresh(t) && IsSignalsBlock(lines, items)
    requires exact ==> forall line <- items :: ReadSignal(line) != []
    ensures Same(Run(s, no, lines), PutSignals(InAny(t), ReadSignals(items)), exact)
  {
    assert s.out.mode == t.out.mode && s.out.signals == t.out.signals;
    SignalsBlockRun(s, no, lines, items);
  }

  /** The classified lines of a manifest, block by block. */
  datatype Blocks = Blocks(
    scalars: seq<Line>,
    roots: seq<Line>,
    owns: seq<Line>,
    touches: seq<Line>,
    any: seq<Line>,
    all: seq<Line>,
    signals: seq<Line>)

  ghost function AllLines(b: Blocks): seq<Line>
  {
    b.scalars + (b.roots + (b.owns + (b.touches + (b.any + (b.all + b.signals)))))
  }

  ghost predicate BlocksOk(b: Blocks, r: Reading, items: seq<Line>)
  {
    && AreScalars(b.scalars, r)
    && IsBlock(b.roots, "path_roots", r.roots)
    && IsBlock(b.owns, "owns_surfaces", r.owns)
    && IsBlock(b.touches, "touches_surfaces", r.touches)
    && (if r.any == [] then b.any == [] else IsBlock(b.any, "capabilities_any", r.any))
    && (if r.all == [] then b.all == [] else IsBlock(b.all, "capabilities_all", r.all))
    && IsSignalsBlock(b.signals, items)
  }

  ghost function PutRequired(st: State, r: Reading): State
  {
    PutBlock(PutBlock(PutBlock(st,
      "path_roots", r.roots), "owns_surfaces", r.owns), "touches_surfaces", r.touches)
  }

  ghost function PutRest(st: State, r: Reading, items: seq<Line>): State
  {
    PutSignals(InAny(PutOptional(PutOptional(st,
      "capabilities_any", r.any), "capabilities_all", r.all)), ReadSignals(items))
  }

  ghost function PutAll(st: State, r: Reading, items: seq<Line>): State
  {
    PutRest(PutRequired(PutScalars(st, r), r), r, items)
  }

  lemma RequiredSame(s: State, t: State, exact: bool, no: nat, b: Blocks, r: Reading, items: seq<Line>, rest: seq<Line>)
    returns (s3: State, n: nat)
    requires Same(s, t, exact) && Fresh(t)
    requires BlocksOk(b, r, items) && (exact ==> NothingEmpty(r))
    ensures Same(s3, PutRequired(t, r), exact) && Fresh(PutRequired(t, r))
    ensures Run(s, no, b.roots + (b.owns + (b.touches + rest))) == Run(s3, n, rest)
  {
    BlockSame(s, t, exact, no, b.roots, "path_roots", r.roots, b.owns + (b.touches + rest));
    var s1, t1, n1 := Run(s, no, b.roots), PutBlock(t, "path_roots", r.roots), no + |b.roots|;
    BlockSame(s1, t1, exact, n1, b.owns, "owns_surfaces", r.owns, b.touches + rest);
    var s2, t2, n2 := Run(s1, n1, b.owns), PutBlock(t1, "owns_surfaces", r.owns), n1 + |b.owns|;
    BlockSame(s2, t2, exact, n2, b.touches, "touches_surfaces", r.touches, rest);
    s3, n := Run(s2, n2, b.touches), n2 + |b.touches|;
  }

  lemma RestSame(s: State, t: State, exact: bool, no: nat, b: Blocks, r: Reading, items: seq<Line>)
    requires Same(s, t, exact) && Fresh(t) && BlocksOk(b, r, items)
    requires exact ==> NothingEmpty(r) && forall line <- items :: ReadSignal(line) != []
    ensures Same(Run(s, no, b.any + (b.all + b.signals)), PutRest(t, r, items), exact)
  {
    OptionalSame(s, t, exact, no, b.any, "capabilities_any", r.any, b.all + b.signals);
    var s1, t1, n1 := Run(s, no, b.any), PutOptional(t, "capabilities_any", r.any), no + |b.any|;
    OptionalSame(s1, t1, exact, n1, b.all, "capabilities_all", r.all, b.signals);
    var s2, t2, n2 := Run(s1, n1, b.all), PutOptional(t1, "capabilities_all", r.all), n1 + |b.all|;
    SignalsSame(s2, t2, exact, n2, b.signals, items);
  }

  lemma ScalarsStayFresh(st: State, r: Reading)
    requires Fresh(st)
    ensures Fresh(PutScalars(st, r)) && PutScalars(st, r).out.lists == st.out.lists
  {
  }

  lemma BlocksSame(s: State, t: State, exact: bool, no: nat, b: Blocks, r: Reading, items: seq<Line>)
    requires Same(s, t, exact) && Fresh(t) && BlocksOk(b, r, items)
    requires exact ==> NothingEmpty(r) && forall line <- items :: ReadSignal(line) != []
    ensures Same(Run(s, no, b.roots + (b.owns + (b.touches + (b.any + (b.all + b.signals))))),
                 PutRest(PutRequired(t, r), r, items), exact)
  {
    var s3, n := RequiredSame(s, t, exact, no, b, r, items, b.any + (b.all + b.signals));
    RestSame(s3, PutRequired(t, r), exact, n, b, r, items);
  }

  lemma ScalarsThen(st: State, scalars: seq<Line>, rest: seq<Line>, r: Reading, exact: bool)
    requires Fresh(st) && AreScalars(scalars, r) && (exact ==> NothingEmpty(r))
    ensures Run(st, 0, scalars + rest) == Run(Run(st, 0, scalars), |scalars|, rest)
    ensures Same(Run(st, 0, scalars), PutScalars(st, r), exact) && Fresh(PutScalars(st, r))
  {
    ScalarsSame(st, exact, 0, scalars, r);
    ScalarsStayFresh(st, r);
    FoldAppend(Step, st, 0, scalars, rest);
  }

  lemma ManifestRead(st: State, b: Blocks, r: Reading, items: seq<Line>, exact: bool)
    requires Fresh(st) && BlocksOk(b, r, items)
    requires exact ==> NothingEmpty(r) && forall line <- items :: ReadSignal(line) != []
    ensures Same(Run(st, 0, AllLines(b)), PutAll(st, r, items), exact)
  {
    ScalarsThen(st, b.scalars, b.roots + (b.owns + (b.touches + (b.any + (b.all + b.signals)))), r, exact);
    BlocksSame(Run(st, 0, b.scalars), PutScalars(st, r), exact, |b.scalars|, b, r, items);
  }

  // ---------------------------------------------------------------------
  // What was read, against what was rendered
  // ---------------------------------------------------------------------

  lemma RestScalars(st: State, r: Reading, items: seq<Line>)
    ensures PutRest(PutRequired(st, r), r, items).out.scalars == st.out.scalars
    ensures PutRest(PutRequired(st, r), r, items).out.mode == Some("any")
    ensures PutRest(PutRequired(st, r), r, items).out.errors == st.out.errors
    ensures PutRest(PutRequired(st, r), r, items).out.signals == st.out.signals + ReadSignals(items)
  {
  }

  lemma FinalScalars(st: State, r: Reading)
    requires st.out.scalars == map[]
    ensures var scalars := PutScalars(st, r).out.scalars;
            && (r.key == "" ==> "addon_key" !in scalars)
            && (r.class_ == "" ==> "addon_class" !in scalars)
            && (r.key != "" ==> "addon_key" in scalars && scalars["addon_key"] == r.key)
            && (r.class_ != "" ==> "addon_class" in scalars && scalars["addon_class"] == r.class_)
            && (r.key != "" && r.class_ != "" && r.book != "" ==>
                  scalars == map["addon_key" := r.key, "addon_class" := r.class_, "rulebook" := r.book,
                                 "manifest_version" := "1"])
    ensures PutScalars(st, r).out.errors == st.out.errors && PutScalars(st, r).out.signals == st.out.signals
  {
  }

  lemma BlockFills(st: State, key: string, values: seq<string>)
    requires key in st.out.lists && st.out.lists[key] == []
    ensures PutBlock(st, key, values).out.lists == st.out.lists[key := NonEmpty(values)]
    ensures PutOptional(st, key, values).out.lists == st.out.lists[key := NonEmpty(values)]
  {
    assert [] + NonEmpty(values) == NonEmpty(values);
    if values == [] {
      assert st.out.lists[key := []] == st.out.lists;
    }
  }

  lemma FiveUpdates(l: map<string, seq<string>>, r: seq<string>, o: seq<string>, t: seq<string>,
                    any: seq<string>, all: seq<string>)
    requires l.Keys == LIST_KEYS
    ensures l["path_roots" := r]["owns_surfaces" := o]["touches_surfaces" := t]["capabilities_any" := any]
             ["capabilities_all" := all]
         == map["path_roots" := r, "owns_surfaces" := o, "touches_surfaces" := t,
                "capabilities_any" := any, "capabilities_all" := all]
  {
  }

  lemma RequiredLists(st: State, r: Reading)
    requires st.out.lists.Keys == LIST_KEYS && forall k <- LIST_KEYS :: st.out.lists[k] == []
    ensures PutRequired(st, r).out.lists
         == st.out.lists["path_roots" := NonEmpty(r.roots)]["owns_surfaces" := NonEmpty(r.owns)]
                        ["touches_surfaces" := NonEmpty(r.touches)]
  {
    BlockFills(st, "path_roots", r.roots);
    var s1 := PutBlock(st, "path_roots", r.roots);
    BlockFills(s1, "owns_surfaces", r.owns);
    var s2 := PutBlock(s1, "owns_surfaces", r.owns);
    BlockFills(s2, "touches_surfaces", r.touches);
  }

  lemma RestLists(st: State, r: Reading, items: seq<Line>)
    requires "capabilities_any" in st.out.lists && st.out.lists["capabilities_any"] == []
    requires "capabilities_all" in st.out.lists && st.out.lists["capabilities_all"] == []
    ensures PutRest(st, r, items).out.lists
         == st.out.lists["capabilities_any" := NonEmpty(r.any)]["capabilities_all" := NonEmpty(r.all)]
  {
    BlockFills(st, "capabilities_any", r.any);
    BlockFills(PutOptional(st, "capabilities_any", r.any), "capabilities_all", r.all);
  }

  lemma FinalLists(st: State, r: Reading, items: seq<Line>)
    requires st.out.lists.Keys == LIST_KEYS && forall k <- LIST_KEYS :: st.out.lists[k] == []
    ensures PutRest(PutRequired(st, r), r, items).out.lists
         == map["path_roots" := NonEmpty(r.roots), "owns_surfaces" := NonEmpty(r.owns),
                "touches_surfaces" := NonEmpty(r.touches), "capabilities_any" := NonEmpty(r.any),
                "capabilities_all" := NonEmpty(r.all)]
  {
    RequiredLists(st, r);
    RestLists(PutRequired(st, r), r, items);
    FiveUpdates(st.out.lists, NonEmpty(r.roots), NonEmpty(r.owns), NonEmpty(r.touches), NonEmpty(r.any),
                NonEmpty(r.all));
  }

  // Connecting the manifest to its classified blocks.

  ghost function BlocksOf(c: string -> Line, m: Manifest): Blocks
  {
    Blocks(
      MapSeq(c, ScalarLines(m)),
      MapSeq(c, Block("path_roots:", m.pathRoots)),
      MapSeq(c, Block("owns_surfaces:", m.ownsSurfaces)),
      MapSeq(c, Block("touches_surfaces:", m.touchesSurfaces)),
      MapSeq(c, OptBlock("capabilities_any:", m.capabilitiesAny)),
      MapSeq(c, OptBlock("capabilities_all:", m.capabilitiesAll)),
      MapSeq(c, SignalLines(m)))
  }

  lemma ClassifiedLines(c: string -> Line, m: Manifest)
    ensures MapSeq(c, ManifestLines(m)) == AllLines(BlocksOf(c, m))
  {
    var l5 := OptBlock("capabilities_all:", m.capabilitiesAll) + SignalLines(m);
    var l4 := OptBlock("capabilities_any:", m.capabilitiesAny) + l5;
    var l3 := Block("touches_surfaces:", m.touchesSurfaces) + l4;
    var l2 := Block("owns_surfaces:", m.ownsSurfaces) + l3;
    var l1 := Block("path_roots:", m.pathRoots) + l2;
    MapAppend(c, ScalarLines(m), l1);
    MapAppend(c, Block("path_roots:", m.pathRoots), l2);
    MapAppend(c, Block("owns_surfaces:", m.ownsSurfaces), l3);
    MapAppend(c, Block("touches_surfaces:", m.touchesSurfaces), l4);
    MapAppend(c, OptBlock("capabilities_any:", m.capabilitiesAny), l5);
    MapAppend(c, OptBlock("capabilities_all:", m.capabilitiesAll), SignalLines(m));
  }

  ghost predicate ReadsScalars(c: string -> Line, m: Manifest, r: Reading)
  {
    var l := ScalarLines(m);
    && IsScalar(c(l[0]), "addon_key", r.key) && IsScalar(c(l[1]), "addon_class", r.class_)
    && IsScalar(c(l[2]), "rulebook", r.book) && IsScalar(c(l[3]), "manifest_version", "1")
  }

  /** The classifier reads every block of `m` as `r` says, and exactly the `good` signals. */
  ghost predicate ReadsManifest(c: string -> Line, m: Manifest, r: Reading, good: ((string, string)) -> bool)
  {
    && ReadsScalars(c, m, r)
    && ReadsBlock(c, "path_roots:", "path_roots", m.pathRoots, r.roots)
    && ReadsBlock(c, "owns_surfaces:", "owns_surfaces", m.ownsSurfaces, r.owns)
    && ReadsBlock(c, "touches_surfaces:", "touches_surfaces", m.touchesSurfaces, r.touches)
    && ReadsBlock(c, "capabilities_any:", "capabilities_any", m.capabilitiesAny, r.any)
    && ReadsBlock(c, "capabilities_all:", "capabilities_all", m.capabilitiesAll, r.all)
    && ReadsSignals(c, m.signals, good)
  }

  lemma BlocksAreOk(c: string -> Line, m: Manifest, r: Reading, good: ((string, string)) -> bool, items: seq<Line>)
    requires ReadsManifest(c, m, r, good) && items == MapSeq(c, SignalItems(m.signals))
    ensures BlocksOk(BlocksOf(c, m), r, items)
  {
    assert AreScalars(MapSeq(c, ScalarLines(m)), r);
    BlockClasses(c, "path_roots:", "path_roots", m.pathRoots, r.roots);
    BlockClasses(c, "owns_surfaces:", "owns_surfaces", m.ownsSurfaces, r.owns);
    BlockClasses(c, "touches_surfaces:", "touches_surfaces", m.touchesSurfaces, r.touches);
    BlockClasses(c, "capabilities_any:", "capabilities_any", m.capabilitiesAny, r.any);
    BlockClasses(c, "capabilities_all:", "capabilities_all", m.capabilitiesAll, r.all);
    SignalsBlockClasses(c, m, good, items);
  }

  ghost predicate IsStart(st: State)
  {
    && st.out.scalars == map[] && st.out.mode.None? && st.out.signals == [] && st.out.errors == []
    && st.out.lists.Keys == LIST_KEYS && forall k <- LIST_KEYS :: st.out.lists[k] == []
  }

  /** Every value is non-empty, trimmed and single-line; signal keys may be anything. */
  ghost predicate CleanValues(m: Manifest)
  {
    && Clean(m.addonKey) && Clean(m.addonClass) && SingleLine(m.rulebookName)
    && AllClean(m.pathRoots) && AllClean(m.ownsSurfaces) && AllClean(m.touchesSurfaces)
    && AllClean(m.capabilitiesAny) && AllClean(m.capabilitiesAll)
    && (forall s <- m.signals :: Clean(s.1))
  }

  ghost predicate NonEmptyValues(m: Manifest)
  {
    && m.addonKey != "" && m.addonClass != ""
    && NoBlanks(m.pathRoots) && NoBlanks(m.ownsSurfaces) && NoBlanks(m.touchesSurfaces)
    && NoBlanks(m.capabilitiesAny) && NoBlanks(m.capabilitiesAll)
  }

  /** The values were read as they were written. */
  ghost predicate Unchanged(m: Manifest, r: Reading)
  {
    && r.key == m.addonKey && r.class_ == m.addonClass
    && NonEmpty(r.roots) == m.pathRoots && NonEmpty(r.owns) == m.ownsSurfaces
    && NonEmpty(r.touches) == m.touchesSurfaces
    && NonEmpty(r.any) == m.capabilitiesAny && NonEmpty(r.all) == m.capabilitiesAll
  }

  lemma UnchangedIsNoBlank(values: seq<string>, read: seq<string>)
    requires |values| == |read| && NoBlanks(values) && NonEmpty(read) == values
    ensures NoBlanks(read)
  {
    NonEmptyIsShort(read);
  }

  lemma UnchangedNothingEmpty(m: Manifest, r: Reading)
    requires NonEmptyValues(m) && Unchanged(m, r) && r.book != ""
    requires |r.roots| == |m.pathRoots| && |r.owns| == |m.ownsSurfaces| && |r.touches| == |m.touchesSurfaces|
    requires |r.any| == |m.capabilitiesAny| && |r.all| == |m.capabilitiesAll|
    ensures NothingEmpty(r)
  {
    UnchangedIsNoBlank(m.pathRoots, r.roots);
    UnchangedIsNoBlank(m.ownsSurfaces, r.owns);
    UnchangedIsNoBlank(m.touchesSurfaces, r.touches);
    UnchangedIsNoBlank(m.capabilitiesAny, r.any);
    UnchangedIsNoBlank(m.capabilitiesAll, r.all);
  }

  lemma GoodSignalsAreRead(c: string -> Line, m: Manifest, good: ((string, string)) -> bool, items: seq<Line>)
    requires ReadsSignals(c, m.signals, good) && items == MapSeq(c, SignalItems(m.signals))
    requires forall s <- m.signals :: good(s)
    ensures forall line <- items :: ReadSignal(line) != []
  {
  }

  /** The states the two readings end in, field by field. */
  lemma FinalOutput(st: State, r: Reading, items: seq<Line>, out: Parsed)
    requires IsStart(st) && out == PutAll(st, r, items).out
    ensures out.lists == map["path_roots" := NonEmpty(r.roots), "owns_surfaces" := NonEmpty(r.owns),
                             "touches_surfaces" := NonEmpty(r.touches), "capabilities_any" := NonEmpty(r.any),
                             "capabilities_all" := NonEmpty(r.all)]
    ensures out.signals == ReadSignals(items) && out.mode == Some("any") && out.errors == []
    ensures r.key == "" ==> "addon_key" !in out.scalars
    ensures r.class_ == "" ==> "addon_class" !in out.scalars
    ensures r.key != "" ==> "addon_key" in out.scalars && out.scalars["addon_key"] == r.key
    ensures r.class_ != "" ==> "addon_class" in out.scalars && out.scalars["addon_class"] == r.class_
    ensures r.key != "" && r.class_ != "" && r.book != "" ==>
              out.scalars == map["addon_key" := r.key, "addon_class" := r.class_, "rulebook" := r.book,
                                 "manifest_version" := "1"]
  {
    FinalScalars(st, r);
    var s := PutScalars(st, r);
    assert s.out.lists == st.out.lists;
    RestScalars(s, r, items);
    FinalLists(s, r, items);
    assert [] + ReadSignals(items) == ReadSignals(items);
  }

  /** When something was read differently, the scalars or lists of the outcome show it. */
  lemma ChangedShows(m: Manifest, r: Reading, out: Parsed)
    requires NonEmptyValues(m)
    requires out.lists == map["path_roots" := NonEmpty(r.roots), "owns_surfaces" := NonEmpty(r.owns),
                              "touches_surfaces" := NonEmpty(r.touches), "capabilities_any" := NonEmpty(r.any),
                              "capabilities_all" := NonEmpty(r.all)]
    requires r.key == "" ==> "addon_key" !in out.scalars
    requires r.class_ == "" ==> "addon_class" !in out.scalars
    requires r.key != "" ==> "addon_key" in out.scalars && out.scalars["addon_key"] == r.key
    requires r.class_ != "" ==> "addon_class" in out.scalars && out.scalars["addon_class"] == r.class_
    requires out.scalars == ScalarsOf(m) && out.lists == ListsOf(m)
    ensures Unchanged(m, r)
  {
    assert out.scalars["addon_key"] == m.addonKey && out.scalars["addon_class"] == m.addonClass;
    assert out.lists["path_roots"] == m.pathRoots && out.lists["owns_surfaces"] == m.ownsSurfaces;
    assert out.lists["touches_surfaces"] == m.touchesSurfaces;
    assert out.lists["capabilities_any"] == m.capabilitiesAny && out.lists["capabilities_all"] == m.capabilitiesAll;
  }

  /** The lines of `w`, read as the values of `m`, come to the meaning of `m`. */
  lemma RunMeans(c: string -> Line, st: State, w: Manifest, m: Manifest, r: Reading, good: ((string, string)) -> bool,
                 items: seq<Line>)
    requires IsStart(st) && NonEmptyValues(m) && ReadsManifest(c, w, r, good)
    requires r.book == "rules." + m.rulebookName + ".md" && Unchanged(m, r) && NothingEmpty(r)
    requires items == MapSeq(c, SignalItems(w.signals)) && ReadSignals(items) == m.signals
    requires forall line <- items :: ReadSignal(line) != []
    ensures Run(st, 0, MapSeq(c, ManifestLines(w))).out == Meaning(m)
  {
    ClassifiedLines(c, w);
    BlocksAreOk(c, w, r, good, items);
    FinalOutput(st, r, items, PutAll(st, r, items).out);
    ManifestRead(st, BlocksOf(c, w), r, items, true);
  }

  lemma RunFaithfully(c: string -> Line, st: State, m: Manifest, r: Reading, good: ((string, string)) -> bool)
    requires IsStart(st) && NonEmptyValues(m) && ReadsManifest(c, m, r, good)
    requires r.book == "rules." + m.rulebookName + ".md"
    requires Unchanged(m, r) && forall s <- m.signals :: good(s)
    ensures Run(st, 0, MapSeq(c, ManifestLines(m))).out == Meaning(m)
  {
    var items := MapSeq(c, SignalItems(m.signals));
    SignalClasses(c, m, good, items);
    UnchangedNothingEmpty(m, r);
    GoodSignalsAreRead(c, m, good, items);
    RunMeans(c, st, m, m, r, good, items);
  }

  lemma RunUnfaithfully(c: string -> Line, st: State, m: Manifest, r: Reading, good: ((string, string)) -> bool)
    requires IsStart(st) && NonEmptyValues(m) && ReadsManifest(c, m, r, good)
    requires Run(st, 0, MapSeq(c, ManifestLines(m))).out == Meaning(m)
    ensures Unchanged(m, r) && forall s <- m.signals :: good(s)
  {
    var items := MapSeq(c, SignalItems(m.signals));
    var final := PutAll(st, r, items).out;
    ClassifiedLines(c, m);
    BlocksAreOk(c, m, r, good, items);
    SignalClasses(c, m, good, items);
    FinalOutput(st, r, items, final);
    ManifestRead(st, BlocksOf(c, m), r, items, false);
    ChangedShows(m, r, final);
  }

  // ---------------------------------------------------------------------
  // The round trip
  // ---------------------------------------------------------------------

  lemma BookIsPlain(name: string)
    requires SingleLine(name)
    ensures Clean("rules." + name + ".md") && !Wrapped("rules." + name + ".md")
  {
    var v := "rules." + name + ".md";
    assert v[0] == 'r' && v[|v| - 1] == 'd';
  }

  lemma ClassifyReadsScalar(c: string -> Line, raw: string, key: string, v: string) returns (u: string)
    requires Mirrors(c) && IsKey(key) && Clean(v) && raw == key + ": " + v
    ensures IsScalar(c(raw), key, u) && u == Unquote(v)
    ensures u == v <==> Plain(v)
  {
    u := Unquote(v);
    ScalarClass(raw, key, v, u);
    UnquoteUnchanged(v);
  }

  ghost predicate PlainValues(m: Manifest)
  {
    && Plain(m.addonKey) && Plain(m.addonClass)
    && AllPlain(m.pathRoots) && AllPlain(m.ownsSurfaces) && AllPlain(m.touchesSurfaces)
    && AllPlain(m.capabilitiesAny) && AllPlain(m.capabilitiesAll)
  }

  lemma ClassifyReadsScalars(c: string -> Line, m: Manifest) returns (key: string, class_: string, book: string)
    requires Mirrors(c) && CleanValues(m)
    ensures var l := ScalarLines(m);
            && IsScalar(c(l[0]), "addon_key", key) && IsScalar(c(l[1]), "addon_class", class_)
            && IsScalar(c(l[2]), "rulebook", book) && IsScalar(c(l[3]), "manifest_version", "1")
    ensures (key == m.addonKey <==> Plain(m.addonKey)) && (class_ == m.addonClass <==> Plain(m.addonClass))
    ensures key == Unquote(m.addonKey) && class_ == Unquote(m.addonClass)
    ensures book == "rules." + m.rulebookName + ".md"
  {
    var l := ScalarLines(m);
    key := ClassifyReadsScalar(c, l[0], "addon_key", m.addonKey);
    class_ := ClassifyReadsScalar(c, l[1], "addon_class", m.addonClass);
    book := "rules." + m.rulebookName + ".md";
    ClassifyBook(c, m.rulebookName, l[2], l[3]);
  }

  lemma ClassifyBook(c: string -> Line, name: string, raw: string, version: string)
    requires Mirrors(c) && SingleLine(name) && raw == "rulebook: rules." + name + ".md" && version == "manifest_version: 1"
    ensures IsScalar(c(raw), "rulebook", "rules." + name + ".md") && IsScalar(c(version), "manifest_version", "1")
  {
    var full := "rules." + name + ".md";
    BookIsPlain(name);
    assert raw == "rulebook" + ": " + full;
    var book := ClassifyReadsScalar(c, raw, "rulebook", full);
    assert version == "manifest_version" + ": " + "1";
    var one := ClassifyReadsScalar(c, version, "manifest_version", "1");
  }

  lemma ListKeysAreKeys()
    ensures IsKey("path_roots") && IsKey("owns_surfaces") && IsKey("touches_surfaces")
    ensures IsKey("capabilities_any") && IsKey("capabilities_all")
  {
  }

  lemma HeadersAreSingleLine()
    ensures SingleLine("path_roots:") && SingleLine("owns_surfaces:") && SingleLine("touches_surfaces:")
    ensures SingleLine("capabilities_any:") && SingleLine("capabilities_all:")
  {
  }

  /** A block as it is read: what its lines give back, and when that is what they hold. */
  ghost predicate ListIsRead(c: string -> Line, raw: string, key: string, values: seq<string>, read: seq<string>)
  {
    ReadsBlock(c, raw, key, values, read) && read == Unquoted(values) && (NonEmpty(read) == values <==> AllPlain(values))
  }

  lemma ClassifyReadsList(c: string -> Line, raw: string, key: string, values: seq<string>) returns (read: seq<string>)
    requires Mirrors(c) && IsKey(key) && raw == key + ":" && AllClean(values)
    ensures ListIsRead(c, raw, key, values, read)
  {
    read := ClassifyReadsBlock(c, raw, key, values);
  }

  lemma ClassifyReadsBlocks(c: string -> Line, m: Manifest)
    returns (roots: seq<string>, owns: seq<string>, touches: seq<string>, any: seq<string>, all: seq<string>)
    requires Mirrors(c) && CleanValues(m)
    ensures ListIsRead(c, "path_roots:", "path_roots", m.pathRoots, roots)
    ensures ListIsRead(c, "owns_surfaces:", "owns_surfaces", m.ownsSurfaces, owns)
    ensures ListIsRead(c, "touches_surfaces:", "touches_surfaces", m.touchesSurfaces, touches)
    ensures ListIsRead(c, "capabilities_any:", "capabilities_any", m.capabilitiesAny, any)
    ensures ListIsRead(c, "capabilities_all:", "capabilities_all", m.capabilitiesAll, all)
  {
    ListKeysAreKeys();
    roots := ClassifyReadsList(c, "path_roots:", "path_roots", m.pathRoots);
    owns := ClassifyReadsList(c, "owns_surfaces:", "owns_surfaces", m.ownsSurfaces);
    touches := ClassifyReadsList(c, "touches_surfaces:", "touches_surfaces", m.touchesSurfaces);
    any, all := ClassifyReadsCapabilities(c, m);
  }

  lemma ClassifyReadsCapabilities(c: string -> Line, m: Manifest) returns (any: seq<string>, all: seq<string>)
    requires Mirrors(c) && CleanValues(m)
    ensures ListIsRead(c, "capabilities_any:", "capabilities_any", m.capabilitiesAny, any)
    ensures ListIsRead(c, "capabilities_all:", "capabilities_all", m.capabilitiesAll, all)
  {
    ListKeysAreKeys();
    any := ClassifyReadsList(c, "capabilities_any:", "capabilities_any", m.capabilitiesAny);
    all := ClassifyReadsList(c, "capabilities_all:", "capabilities_all", m.capabilitiesAll);
  }

  lemma ClassifyReadsManifest(c: string -> Line, m: Manifest) returns (r: Reading)
    requires Mirrors(c) && CleanValues(m)
    ensures ReadsManifest(c, m, r, GoodSignal)
    ensures r.book == "rules." + m.rulebookName + ".md"
    ensures Unchanged(m, r) <==> PlainValues(m)
    ensures r == UnquotedReading(m)
  {
    var key, class_, book := ClassifyReadsScalars(c, m);
    var roots, owns, touches, any, all := ClassifyReadsBlocks(c, m);
    ClassifyReadsSignals(c, m.signals);
    r := Reading(key, class_, book, roots, owns, touches, any, all);
  }

  ghost function UnquotedReading(m: Manifest): Reading
  {
    Reading(Unquote(m.addonKey), Unquote(m.addonClass), "rules." + m.rulebookName + ".md", Unquoted(m.pathRoots),
            Unquoted(m.ownsSurfaces), Unquoted(m.touchesSurfaces), Unquoted(m.capabilitiesAny),
            Unquoted(m.capabilitiesAll))
  }

  /** Signal keys on one line, so that the rendered lines are the parsed lines. */
  ghost predicate SingleLineKeys(m: Manifest)
  {
    forall s <- m.signals :: SingleLine(s.0)
  }

  ghost predicate AllSingleLine(lines: seq<string>)
  {
    forall line <- lines :: SingleLine(line)
  }

  lemma AllSingleLineAppend(a: seq<string>, b: seq<string>)
    requires AllSingleLine(a) && AllSingleLine(b)
    ensures AllSingleLine(a + b)
  {
  }

  lemma BlockIsSingleLine(raw: string, values: seq<string>)
    requires SingleLine(raw) && AllClean(values)
    ensures AllSingleLine(Block(raw, values)) && AllSingleLine(OptBlock(raw, values))
  {
    forall k | 0 <= k < |values|
      ensures SingleLine(Items(values)[k])
    {
      assert values[k] in values && SingleLine("  - ");
    }
  }

  lemma SignalsAreSingleLine(m: Manifest)
    requires CleanValues(m) && SingleLineKeys(m)
    ensures AllSingleLine(SignalLines(m))
  {
    forall k | 0 <= k < |m.signals|
      ensures SingleLine(SignalItems(m.signals)[k])
    {
      assert m.signals[k] in m.signals && SingleLine("    - ") && SingleLine(": ");
    }
    assert SingleLine("signals:") && SingleLine("  any:");
  }

  lemma ScalarsAreSingleLine(m: Manifest)
    requires CleanValues(m)
    ensures AllSingleLine(ScalarLines(m))
  {
    assert SingleLine("addon_key: ") && SingleLine("addon_class: ") && SingleLine("manifest_version: 1");
    assert SingleLine("rulebook: rules.") && SingleLine(".md");
  }

  lemma BlockAppend(raw: string, values: seq<string>, rest: seq<string>)
    requires SingleLine(raw) && AllClean(values) && AllSingleLine(rest)
    ensures AllSingleLine(Block(raw, values) + rest) && AllSingleLine(OptBlock(raw, values) + rest)
  {
    BlockIsSingleLine(raw, values);
    AllSingleLineAppend(Block(raw, values), rest);
    AllSingleLineAppend(OptBlock(raw, values), rest);
  }

  lemma LinesAreSingleLine(m: Manifest)
    requires CleanValues(m) && SingleLineKeys(m)
    ensures AllSingleLine(ManifestLines(m))
  {
    HeadersAreSingleLine();
    SignalsAreSingleLine(m);
    BlockAppend("capabilities_all:", m.capabilitiesAll, SignalLines(m));
    var l5 := OptBlock("capabilities_all:", m.capabilitiesAll) + SignalLines(m);
    BlockAppend("capabilities_any:", m.capabilitiesAny, l5);
    var l4 := OptBlock("capabilities_any:", m.capabilitiesAny) + l5;
    BlockAppend("touches_surfaces:", m.touchesSurfaces, l4);
    var l3 := Block("touches_surfaces:", m.touchesSurfaces) + l4;
    BlockAppend("owns_surfaces:", m.ownsSurfaces, l3);
    var l2 := Block("owns_surfaces:", m.ownsSurfaces) + l3;
    BlockAppend("path_roots:", m.pathRoots, l2);
    ScalarsAreSingleLine(m);
    AllSingleLineAppend(ScalarLines(m), Block("path_roots:", m.pathRoots) + l2);
  }

  lemma ParseIsRun(c: string -> Line, m: Manifest)
    requires Mirrors(c) && CleanValues(m) && SingleLineKeys(m)
    ensures Parse(RenderManifest(m)) == Run(START, 0, MapSeq(c, ManifestLines(m))).out
  {
    RenderedText(m);
    LinesAreSingleLine(m);
    SplitUnlines(ManifestLines(m));
    forall s, n, raw
      ensures ParseLine(s, n, raw) == Step(s, n, c(raw))
    {
      assert c(raw) == Classify(raw);
    }
    FoldMap(ParseLine, Step, c, START, 0, ManifestLines(m), MapSeq(c, ManifestLines(m)));
  }

  lemma CleanIsNonEmpty(m: Manifest)
    requires CleanValues(m)
    ensures NonEmptyValues(m)
  {
  }

  /** A round trip can only give back clean values and well-formed signal keys. */
  lemma RoundTripIsClean(m: Manifest)
    requires Parse(RenderManifest(m)) == Meaning(m)
    ensures CleanValues(m) && forall s <- m.signals :: IsSignalKey(s.0)
  {
    ParseIsClean(RenderManifest(m));
    ScalarsAreClean(m, Meaning(m));
    ListsAreClean(m, Meaning(m));
  }

  lemma ScalarsAreClean(m: Manifest, out: Parsed)
    requires out == Meaning(m) && CleanOutput(out)
    ensures Clean(m.addonKey) && Clean(m.addonClass) && SingleLine(m.rulebookName)
  {
    assert "addon_key" in out.scalars && "addon_class" in out.scalars && "rulebook" in out.scalars;
    var book := "rules." + m.rulebookName + ".md";
    assert out.scalars["rulebook"] == book;
    assert m.rulebookName == book[6..6 + |m.rulebookName|];
    SliceStaysSingleLine(book, 6, 6 + |m.rulebookName|);
  }

  lemma ListsAreClean(m: Manifest, out: Parsed)
    requires out == Meaning(m) && CleanOutput(out)
    ensures AllClean(m.pathRoots) && AllClean(m.ownsSurfaces) && AllClean(m.touchesSurfaces)
    ensures AllClean(m.capabilitiesAny) && AllClean(m.capabilitiesAll)
  {
    assert "path_roots" in out.lists && "owns_surfaces" in out.lists && "touches_surfaces" in out.lists;
    assert "capabilities_any" in out.lists && "capabilities_all" in out.lists;
  }

  lemma SignalKeysAreSingleLine(m: Manifest)
    requires forall s <- m.signals :: IsSignalKey(s.0)
    ensures SingleLineKeys(m)
  {
  }

  lemma Mirror() returns (c: string -> Line)
    ensures Mirrors(c)
  {
    c := Classify;
  }

  lemma RoundTripOfClean(m: Manifest)
    requires CleanValues(m) && SingleLineKeys(m)
    ensures Parse(RenderManifest(m)) == Meaning(m) <==> PlainValues(m) && forall s <- m.signals :: GoodSignal(s)
  {
    if PlainValues(m) && forall s <- m.signals :: GoodSignal(s) {
      PlainComesBack(m);
    } else if Parse(RenderManifest(m)) == Meaning(m) {
      OnlyPlainComesBack(m);
    }
  }

  /** The classifier and what it reads, ready for either direction. */
  lemma CleanReading(m: Manifest) returns (c: string -> Line, r: Reading)
    requires CleanValues(m) && SingleLineKeys(m)
    ensures NonEmptyValues(m) && ReadsManifest(c, m, r, GoodSignal)
    ensures r.book == "rules." + m.rulebookName + ".md" && (Unchanged(m, r) <==> PlainValues(m))
    ensures r == UnquotedReading(m) && Mirrors(c)
    ensures Parse(RenderManifest(m)) == Run(START, 0, MapSeq(c, ManifestLines(m))).out
  {
    c := Mirror();
    ParseIsRun(c, m);
    r := ClassifyReadsManifest(c, m);
    CleanIsNonEmpty(m);
  }

  lemma PlainComesBack(m: Manifest)
    requires CleanValues(m) && SingleLineKeys(m) && PlainValues(m) && forall s <- m.signals :: GoodSignal(s)
    ensures Parse(RenderManifest(m)) == Meaning(m)
  {
    var c, r := CleanReading(m);
    RunFaithfully(c, START, m, r, GoodSignal);
  }

  lemma OnlyPlainComesBack(m: Manifest)
    requires CleanValues(m) && SingleLineKeys(m) && Parse(RenderManifest(m)) == Meaning(m)
    ensures PlainValues(m) && forall s <- m.signals :: GoodSignal(s)
  {
    var c, r := CleanReading(m);
    RunUnfaithfully(c, START, m, r, GoodSignal);
  }

  /**
   Parsing a rendered manifest gives back exactly what was rendered, with no
   errors, if and only if every value is non-empty, trimmed, single-line and
   not wrapped in matching quotes, and every signal key is over `[a-z_]`.
   */
  lemma RoundTrip(m: Manifest)
    ensures Parse(RenderManifest(m)) == Meaning(m) <==> Faithful(m)
  {
    if Parse(RenderManifest(m)) == Meaning(m) {
      RoundTripIsClean(m);
    }
    if CleanValues(m) && forall s <- m.signals :: IsSignalKey(s.0) {
      SignalKeysAreSingleLine(m);
      RoundTripOfClean(m);
    }
  }

  // ---------------------------------------------------------------------
  // The manifests the factory produces
  // ---------------------------------------------------------------------

  /** A pair as `key=value` arguments yield it: both parts trimmed and non-empty, no equals sign in the key. */
  ghost predicate TidySignal(s: (string, string))
  {
    s.0 != "" && Trimmed(s.0) && '=' !in s.0 && s.1 != "" && Trimmed(s.1)
  }

  ghost predicate TidySignals(signals: seq<(string, string)>)
  {
    forall s <- signals :: TidySignal(s)
  }

  ghost predicate SplitsTidily(split: Splitter)
  {
    forall raw :: split(raw).Ok? && split(raw).value.Some? ==> TidySignal(split(raw).value.value)
  }

  lemma SplitSignalTidies(raw: string)
    ensures SplitSignal(raw).Ok? && SplitSignal(raw).value.Some? ==> TidySignal(SplitSignal(raw).value.value)
  {
    var item := Strip(raw);
    var n := IndexOf(item, '=', 0);
    if n < |item| {
      StrippedPair(item[..n], item[n + 1..]);
    }
  }

  lemma StrippedPair(key: string, val: string)
    requires '=' !in key
    ensures Strip(key) != "" && Strip(val) != "" ==> TidySignal((Strip(key), Strip(val)))
  {
    StripTrims(key);
    StripTrims(val);
    StripKeeps(key, '=');
  }

  lemma StripKeeps(s: string, c: char)
    ensures c !in s ==> c !in Strip(s)
  {
  }

  lemma {:induction false} SplitSignalsTidies(split: Splitter, read: seq<(string, string)>, values: seq<string>)
    requires SplitsTidily(split) && TidySignals(read)
    ensures SplitSignals(split, read, values).Ok? ==> TidySignals(SplitSignals(split, read, values).value)
    decreases |values|
  {
    if values != [] {
      match split(values[0])
      case Raised(_) =>
      case Ok(None) => SplitSignalsTidies(split, read, values[1..]);
      case Ok(Some(signal)) => SplitSignalsTidies(split, read + [signal], values[1..]);
    }
  }

  lemma EntriesAreTidy(values: seq<string>)
    ensures SignalEntries(values).Ok? ==> TidySignals(SignalEntries(values).value) && SignalEntries(values).value != []
  {
    forall raw
      ensures SplitSignal(raw).Ok? && SplitSignal(raw).value.Some? ==> TidySignal(SplitSignal(raw).value.value)
    {
      SplitSignalTidies(raw);
    }
    SplitSignalsTidies(SplitSignal, [], values);
  }

  /** What cleaning guarantees about an accepted request. */
  ghost predicate TidyManifest(m: Manifest)
  {
    && IsAddonKey(m.addonKey) && IsRulebookName(m.rulebookName)
    && Tidy(m.pathRoots) && Tidy(m.ownsSurfaces) && Tidy(m.touchesSurfaces)
    && Tidy(m.capabilitiesAny) && Tidy(m.capabilitiesAll) && TidySignals(m.signals)
    && m.pathRoots != [] && m.ownsSurfaces != [] && m.touchesSurfaces != []
    && (m.capabilitiesAny != [] || m.capabilitiesAll != []) && m.signals != []
  }

  lemma FactoryFields(args: Arguments, m: Manifest)
    requires BuildManifest(args) == Ok(m)
    ensures IsAddonKey(m.addonKey) && IsRulebookName(m.rulebookName) && m.addonClass == args.addonClass
    ensures m.pathRoots == StripAll(args.pathRoots) != []
    ensures m.ownsSurfaces == StripAll(args.ownsSurfaces) != []
    ensures m.touchesSurfaces == StripAll(args.touchesSurfaces) != []
    ensures m.capabilitiesAny == StripAll(args.capabilitiesAny) && m.capabilitiesAll == StripAll(args.capabilitiesAll)
    ensures m.capabilitiesAny != [] || m.capabilitiesAll != []
    ensures SignalEntries(args.signals) == Ok(m.signals)
  {
  }

  lemma FactoryTidies(args: Arguments)
    ensures BuildManifest(args).Ok? ==>
              TidyManifest(BuildManifest(args).value) && BuildManifest(args).value.addonClass == args.addonClass
  {
    if BuildManifest(args).Ok? {
      FactoryFields(args, BuildManifest(args).value);
      StripAllTidies(args.pathRoots);
      StripAllTidies(args.ownsSurfaces);
      StripAllTidies(args.touchesSurfaces);
      StripAllTidies(args.capabilitiesAny);
      StripAllTidies(args.capabilitiesAll);
      EntriesAreTidy(args.signals);
    }
  }

  // Cleaning what is already clean.

  ghost function Joined(s: (string, string)): string
  {
    s.0 + "=" + s.1
  }

  ghost function JoinedAll(signals: seq<(string, string)>): (r: seq<string>)
    ensures |r| == |signals| && forall i :: 0 <= i < |r| ==> r[i] == Joined(signals[i])
  {
    seq(|signals|, i requires 0 <= i < |signals| => Joined(signals[i]))
  }

  lemma SplitJoined(s: (string, string))
    requires TidySignal(s)
    ensures SplitSignal(Joined(s)) == Ok(Some(s))
  {
    JoinedIsTrimmed(s.0, s.1, Joined(s));
    FirstEquals(s.0, s.1, Joined(s));
    StripTrims(s.0);
    StripTrims(s.1);
  }

  lemma JoinedIsTrimmed(key: string, val: string, raw: string)
    requires key != "" && Trimmed(key) && val != "" && Trimmed(val) && raw == key + "=" + val
    ensures Strip(raw) == raw && raw != ""
  {
    assert raw[0] == key[0] && raw[|raw| - 1] == val[|val| - 1];
    StripTrims(raw);
  }

  lemma FirstEquals(key: string, val: string, raw: string)
    requires '=' !in key && raw == key + "=" + val
    ensures IndexOf(raw, '=', 0) == |key| && raw[..|key|] == key && raw[|key| + 1..] == val
  {
    assert raw[|key|] == '=';
    assert forall k :: 0 <= k < |key| ==> raw[k] == key[k];
  }

  lemma {:induction false} SplitsBack(split: Splitter, read: seq<(string, string)>, values: seq<string>,
                                      signals: seq<(string, string)>)
    requires |values| == |signals| && forall i :: 0 <= i < |values| ==> split(values[i]) == Ok(Some(signals[i]))
    ensures SplitSignals(split, read, values) == Ok(read + signals)
    decreases |values|
  {
    if values != [] {
      SplitsBack(split, read + [signals[0]], values[1..], signals[1..]);
      assert read + [signals[0]] + signals[1..] == read + signals;
    } else {
      assert read + signals == read;
    }
  }

  lemma EntriesOfJoined(signals: seq<(string, string)>)
    requires TidySignals(signals) && signals != []
    ensures SignalEntries(JoinedAll(signals)) == Ok(signals)
  {
    forall i | 0 <= i < |signals|
      ensures SplitSignal(JoinedAll(signals)[i]) == Ok(Some(signals[i]))
    {
      assert signals[i] in signals;
      SplitJoined(signals[i]);
    }
    SplitsBack(SplitSignal, [], JoinedAll(signals), signals);
    assert [] + signals == signals;
  }

  ghost function ArgumentsOf(m: Manifest, claims: seq<string>): Arguments
  {
    Arguments(m.addonKey, m.addonClass, m.rulebookName, m.pathRoots, m.ownsSurfaces, m.touchesSurfaces, claims,
              m.capabilitiesAny, m.capabilitiesAll, JoinedAll(m.signals))
  }

  /** The factory accepts exactly the tidy manifests, written out as arguments, and changes nothing in them. */
  lemma FactoryKeepsTidy(m: Manifest, claims: seq<string>)
    requires Tidy(claims) && claims != []
    ensures BuildManifest(ArgumentsOf(m, claims)) == Ok(m) <==> TidyManifest(m)
  {
    if TidyManifest(m) {
      TidyIsKept(m, claims);
    } else {
      FactoryTidies(ArgumentsOf(m, claims));
    }
  }

  lemma TidyIsKept(m: Manifest, claims: seq<string>)
    requires TidyManifest(m) && Tidy(claims) && claims != []
    ensures BuildManifest(ArgumentsOf(m, claims)) == Ok(m)
  {
    NamesAreTrimmed(m.addonKey, m.rulebookName);
    StripAllKeeps(m.pathRoots);
    StripAllKeeps(m.ownsSurfaces);
    StripAllKeeps(m.touchesSurfaces);
    StripAllKeeps(claims);
    StripAllKeeps(m.capabilitiesAny);
    StripAllKeeps(m.capabilitiesAll);
    EntriesOfJoined(m.signals);
  }

  lemma NamesAreTrimmed(key: string, name: string)
    requires IsAddonKey(key) && IsRulebookName(name)
    ensures Strip(key) == key && Strip(name) == name
  {
    assert key[|key| - 1] in key && name[|name| - 1] in name;
    StripTrims(key);
    StripTrims(name);
  }

  ghost predicate OneLineUnquoted(values: seq<string>)
  {
    forall v <- values :: SingleLine(v) && !Wrapped(v)
  }

  lemma NamesArePlain(m: Manifest)
    requires IsAddonKey(m.addonKey) && IsRulebookName(m.rulebookName)
    ensures Plain(m.addonKey) && SingleLine(m.rulebookName)
  {
    var k := m.addonKey;
    assert k[0] in k && k[|k| - 1] in k;
  }

  lemma ClassIsPlain(class_: string)
    requires class_ == "required" || class_ == "advisory"
    ensures Plain(class_)
  {
  }

  lemma TidyIsPlain(values: seq<string>)
    requires Tidy(values)
    ensures AllPlain(values) <==> OneLineUnquoted(values)
  {
  }

  /**
   For a manifest the factory accepted the stripping has already been done, so
   what is left to check is line breaks, wrapping quotes and signal keys.
   */
  lemma FactoryRoundTrip(args: Arguments)
    ensures var built := BuildManifest(args);
            built.Ok? && (args.addonClass == "required" || args.addonClass == "advisory") ==>
              (Parse(RenderManifest(built.value)) == Meaning(built.value) <==> Readable(built.value))
  {
    var built := BuildManifest(args);
    if built.Ok? && (args.addonClass == "required" || args.addonClass == "advisory") {
      FactoryTidies(args);
      TidyRoundTrip(built.value);
    }
  }

  /** What is left to check of a tidy manifest. */
  ghost predicate Readable(m: Manifest)
  {
    && OneLineUnquoted(m.pathRoots) && OneLineUnquoted(m.ownsSurfaces)
    && OneLineUnquoted(m.touchesSurfaces)
    && OneLineUnquoted(m.capabilitiesAny) && OneLineUnquoted(m.capabilitiesAll)
    && forall s <- m.signals :: IsSignalKey(s.0) && SingleLine(s.1) && !Wrapped(s.1)
  }

  lemma TidyRoundTrip(m: Manifest)
    requires TidyManifest(m) && (m.addonClass == "required" || m.addonClass == "advisory")
    ensures Parse(RenderManifest(m)) == Meaning(m) <==> Readable(m)
  {
    NamesArePlain(m);
    ClassIsPlain(m.addonClass);
    TidyIsPlain(m.pathRoots);
    TidyIsPlain(m.ownsSurfaces);
    TidyIsPlain(m.touchesSurfaces);
    TidyIsPlain(m.capabilitiesAny);
    TidyIsPlain(m.capabilitiesAll);
    RoundTrip(m);
  }

  /** A concrete loss: a quoted path root, which the factory accepts, comes back without its quotes. */
  lemma QuotedRootIsLost(m: Manifest, v: string)
    requires v == "'src'"
    requires m == Manifest("A", "required", "a", [v], ["s"], ["t"], ["c"], [], [("k", "v")])
    ensures BuildManifest(ArgumentsOf(m, [v])) == Ok(m)
    ensures Parse(RenderManifest(m)) != Meaning(m)
  {
    QuotedRootIsAccepted(m, v);
    RoundTrip(m);
    assert v in m.pathRoots && !Plain(v);
  }

  lemma QuotedRootIsAccepted(m: Manifest, v: string)
    requires v == "'src'"
    requires m == Manifest("A", "required", "a", [v], ["s"], ["t"], ["c"], [], [("k", "v")])
    ensures BuildManifest(ArgumentsOf(m, [v])) == Ok(m)
  {
    TidyIsKept(m, [v]);
  }

  // ---------------------------------------------------------------------
  // What the factory refuses
  // ---------------------------------------------------------------------

  /** The key without its leading and the value without its trailing whitespace. */
  lemma ArgumentEnds(key: string, val: string) returns (left: string, right: string, pre: string, post: string)
    ensures AllSpace(pre) && AllSpace(post) && key == pre + left && val == right + post
    ensures (left == "" || !IsSpace(left[0])) && (right == "" || !IsSpace(right[|right| - 1]))
  {
    pre, left := key[..Lead(key, 0)], key[Lead(key, 0)..];
    right, post := val[..Trail(val, 0, |val|)], val[Trail(val, 0, |val|)..];
  }

  lemma FrontIsStripped(pre: string, s: string)
    requires AllSpace(pre)
    ensures Strip(pre + s) == Strip(s)
  {
    var a, b := StripIsMiddle(s);
    StripTrims(s);
    AroundIsStripped(pre, s, "", a, Strip(s), b);
    assert pre + s + "" == pre + s;
  }

  lemma BackIsStripped(s: string, post: string)
    requires AllSpace(post)
    ensures Strip(s + post) == Strip(s)
  {
    var a, b := StripIsMiddle(s);
    StripTrims(s);
    AroundIsStripped("", s, post, a, Strip(s), b);
    assert "" + s == s;
  }

  lemma AroundIsStripped(pre: string, s: string, post: string, a: string, v: string, b: string)
    requires AllSpace(pre) && AllSpace(post) && AllSpace(a) && AllSpace(b) && Trimmed(v) && s == a + v + b
    ensures Strip(pre + s + post) == v
  {
    var front, back := pre + a, b + post;
    assert pre + s + post == front + v + back;
    MiddleIsStripped(pre + s + post, front, v, back);
  }

  /** One `key=value` argument: both sides stripped at the first equals sign, and refused when either is blank. */
  lemma SignalArgument(key: string, val: string, raw: string)
    requires '=' !in key && raw == key + "=" + val
    ensures SplitSignal(raw) ==
            if AllSpace(key) || AllSpace(val) then Raised(InvalidSignal(raw)) else Ok(Some((Strip(key), Strip(val))))
  {
    var left, right, pre, post := ArgumentEnds(key, val);
    var item := left + "=" + right;
    MiddleIsStripped(raw, pre, item, post);
    FirstEquals(left, right, item);
    FrontIsStripped(pre, left);
    BackIsStripped(right, post);
    BlankMeans(key);
    BlankMeans(val);
  }

  /** Without an equals sign an argument is blank and skipped, or refused. */
  lemma NoArgument(raw: string)
    requires '=' !in raw
    ensures SplitSignal(raw) == if AllSpace(raw) then Ok(None) else Raised(InvalidSignal(raw))
  {
    BlankMeans(raw);
    StripKeeps(raw, '=');
  }

  ghost predicate AllBlank(values: seq<string>)
  {
    forall v <- values :: AllSpace(v)
  }

  lemma {:induction false} NothingLeft(values: seq<string>)
    ensures StripAll(values) == [] <==> AllBlank(values)
  {
    if values != [] {
      BlankMeans(values[0]);
      NothingLeft(values[1..]);
      assert values == [values[0]] + values[1..];
    }
  }

  /** What a missing input is: an option of which every value is blank; each required option can be the one. */
  lemma MissingMeans(args: Arguments)
    requires IsAddonKey(Strip(args.addonKey)) && IsRulebookName(Strip(args.rulebookName))
    ensures AllBlank(args.pathRoots) ==> BuildManifest(args) == Raised(MissingInput("--path-root"))
    ensures !AllBlank(args.pathRoots) && AllBlank(args.ownsSurfaces) ==>
              BuildManifest(args) == Raised(MissingInput("--owns-surface"))
    ensures !AllBlank(args.pathRoots) && !AllBlank(args.ownsSurfaces) && AllBlank(args.touchesSurfaces) ==>
              BuildManifest(args) == Raised(MissingInput("--touches-surface"))
    ensures !AllBlank(args.pathRoots) && !AllBlank(args.ownsSurfaces) && !AllBlank(args.touchesSurfaces) ==>
              && (AllBlank(args.criticalClaims) ==> BuildManifest(args) == Raised(MissingInput("--critical-quality-claim")))
              && (!AllBlank(args.criticalClaims) ==>
                    (BuildManifest(args) == Raised(MissingCapability) <==>
                     AllBlank(args.capabilitiesAny) && AllBlank(args.capabilitiesAll)))
  {
    NothingLeft(args.pathRoots);
    NothingLeft(args.ownsSurfaces);
    NothingLeft(args.touchesSurfaces);
    NothingLeft(args.criticalClaims);
    NothingLeft(args.capabilitiesAny);
    NothingLeft(args.capabilitiesAll);
    SignalErrors(SplitSignal, [], args.signals);
  }

  lemma {:induction false} SignalErrors(split: Splitter, read: seq<(string, string)>, values: seq<string>)
    requires forall raw :: split(raw).Raised? ==> split(raw).error.InvalidSignal?
    ensures SplitSignals(split, read, values).Raised? ==> SplitSignals(split, read, values).error.InvalidSignal?
    decreases |values|
  {
    if values != [] {
      match split(values[0])
      case Raised(_) =>
      case Ok(None) => SignalErrors(split, read, values[1..]);
      case Ok(Some(signal)) => SignalErrors(split, read + [signal], values[1..]);
    }
  }
}
