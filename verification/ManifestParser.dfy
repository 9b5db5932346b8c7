/** The line-by-line reader of addon manifests. */
module ManifestParser {
  import opened Options
  import opened PyText

  datatype ErrorKind =
    | MalformedTopLevel
    | NotAList(key: string)
    | EmptyScalar(key: string)
    | MixedModes
    | SignalBeforeMode
    | EmptySignal(key: string)
    | MalformedSignal
    | EmptyEntry(key: string)
    | MalformedEntry(key: string)
    | UnexpectedIndent

  datatype ParseError = ParseError(line: nat, kind: ErrorKind)

  /** What the parser returns. */
  datatype Parsed = Parsed(
    scalars: map<string, string>,
    mode: Option<string>,
    signals: seq<(string, string)>,
    lists: map<string, seq<string>>,
    errors: seq<ParseError>)

  /** Where the parser is: inside the signals block, or below an open list key. */
  datatype State = State(out: Parsed, inSignals: bool, openList: Option<string>)

  const LIST_KEYS: set<string> :=
    {"path_roots", "owns_surfaces", "touches_surfaces", "capabilities_any", "capabilities_all"}

  const START: State :=
    State(Parsed(map[], None, [], map k | k in LIST_KEYS :: [], []), false, None)

  // ---------------------------------------------------------------------
  // Values
  // ---------------------------------------------------------------------

  predicate Wrapped(v: string)
  {
    |v| >= 2 && v[0] == v[|v| - 1] && v[0] in "'\""
  }

  function Unquote(value: string): string
  {
    var v := Strip(value);
    if Wrapped(v) then Strip(v[1..|v| - 1]) else v
  }

  function UnquoteAll(parts: seq<string>): seq<string>
  {
    if parts == [] then []
    else
      var v := Unquote(parts[0]);
      (if v == "" then [] else [v]) + UnquoteAll(parts[1..])
  }

  function ParseInlineList(value: string): Option<seq<string>>
  {
    var v := Strip(value);
    if v == "" || v[0] != '[' || v[|v| - 1] != ']' then None
    else
      var inner := Strip(v[1..|v| - 1]);
      if inner == "" then Some([]) else Some(UnquoteAll(SplitAt(inner, ',')))
  }

  // ---------------------------------------------------------------------
  // Line shapes
  // ---------------------------------------------------------------------

  predicate IsKeyStart(c: char)
  {
    'A' <= c <= 'Z' || 'a' <= c <= 'z' || c == '_'
  }

  predicate IsKeyChar(c: char)
  {
    IsKeyStart(c) || '0' <= c <= '9' || c == '-'
  }

  predicate IsSignalChar(c: char)
  {
    'a' <= c <= 'z' || c == '_'
  }

  /** A non-empty text over `[a-z_]`. */
  predicate IsSignalKey(key: string)
  {
    key != "" && forall c <- key :: IsSignalChar(c)
  }

  /** One past the longest run of accepted characters starting at `i`. */
  function Span(accept: char -> bool, s: string, i: nat): (n: nat)
    requires i <= |s|
    ensures i <= n <= |s| && forall k :: i <= k < n ==> accept(s[k])
    ensures n < |s| ==> !accept(s[n])
    decreases |s| - i
  {
    if i < |s| && accept(s[i]) then Span(accept, s, i + 1) else i
  }

  /** `key: value` at the start of the line. */
  function MatchTopLevel(raw: string): Option<(string, string)>
  {
    var n := Span(IsKeyChar, raw, 0);
    if n > 0 && IsKeyStart(raw[0]) && n < |raw| && raw[n] == ':' then Some((raw[..n], Strip(raw[n + 1..])))
    else None
  }

  predicate Indented(raw: string, n: nat)
  {
    n <= |raw| && forall k :: 0 <= k < n ==> IsSpace(raw[k])
  }

  /** `any:` or `all:` below the signals key. */
  function MatchMode(raw: string): Option<string>
  {
    if |raw| >= 6 && Indented(raw, 2) && raw[2..5] in ["any", "all"] && raw[5] == ':' && Strip(raw[6..]) == ""
    then Some(raw[2..5]) else None
  }

  /** `- key: value` below the mode. */
  function MatchSignal(raw: string): (m: Option<(string, string)>)
    ensures m.Some? ==> IsSignalKey(m.value.0)
  {
    if |raw| >= 5 && Indented(raw, 4) && raw[4] == '-' then
      var rest := LStrip(raw[5..]);
      var n := Span(IsSignalChar, rest, 0);
      if 0 < n < |rest| && rest[n] == ':' then Some((rest[..n], Strip(rest[n + 1..]))) else None
    else None
  }

  /** `- value` below a list key. */
  function MatchEntry(raw: string): Option<string>
  {
    if |raw| >= 3 && Indented(raw, 2) && raw[2] == '-' then Some(Strip(raw[3..])) else None
  }

  /** A line as the state machine sees it, with its values already unquoted. */
  datatype Line =
    | Ignored
    | BadTop
    | Top(key: string, blank: bool, scalar: string, items: Option<seq<string>>)
    | Nested(mode: Option<string>, signal: Option<(string, string)>, entry: Option<string>)

  function Classify(raw: string): Line
  {
    var t := Strip(raw);
    if t == "" || t[0] == '#' then Ignored
    else if raw[0] != ' ' then ClassifyTop(raw)
    else Nested(MatchMode(raw), UnquoteSignal(MatchSignal(raw)), UnquoteEntry(MatchEntry(raw)))
  }

  function ClassifyTop(raw: string): Line
  {
    match MatchTopLevel(raw)
    case None => BadTop
    case Some((key, val)) => Top(key, val == "", Unquote(val), ParseInlineList(val))
  }

  function UnquoteSignal(m: Option<(string, string)>): Option<(string, string)>
  {
    if m.None? then None else Some((m.value.0, Unquote(m.value.1)))
  }

  function UnquoteEntry(m: Option<string>): Option<string>
  {
    if m.None? then None else Some(Unquote(m.value))
  }

  // ---------------------------------------------------------------------
  // The line state machine
  // ---------------------------------------------------------------------

  function Fail(st: State, line: nat, kind: ErrorKind): State
  {
    st.(out := st.out.(errors := st.out.errors + [ParseError(line, kind)]))
  }

  function Extend(st: State, key: string, values: seq<string>): State
  {
    var present := if key in st.out.lists then st.out.lists[key] else [];
    st.(out := st.out.(lists := st.out.lists[key := present + values]))
  }

  function TopLevelStep(st: State, no: nat, line: Line): State
    requires line.Top?
  {
    if line.key == "signals" then st.(inSignals := true, openList := None)
    else if line.key in LIST_KEYS && line.blank then st.(inSignals := false, openList := Some(line.key))
    else
      var closed := st.(inSignals := false, openList := None);
      if line.key in LIST_KEYS then
        if line.items.None? then Fail(closed, no, NotAList(line.key))
        else Extend(closed, line.key, line.items.value)
      else if line.scalar == "" then Fail(closed, no, EmptyScalar(line.key))
      else closed.(out := closed.out.(scalars := closed.out.scalars[line.key := line.scalar]))
  }

  function SignalsStep(st: State, no: nat, line: Line): State
    requires line.Nested?
  {
    if line.mode.Some? then
      var noted := if st.out.mode.Some? && st.out.mode != line.mode then Fail(st, no, MixedModes) else st;
      noted.(out := noted.out.(mode := line.mode))
    else if line.signal.None? then Fail(st, no, MalformedSignal)
    else if st.out.mode.None? then Fail(st, no, SignalBeforeMode)
    else if line.signal.value.1 == "" then Fail(st, no, EmptySignal(line.signal.value.0))
    else st.(out := st.out.(signals := st.out.signals + [line.signal.value]))
  }

  function EntryStep(st: State, no: nat, line: Line, key: string): State
    requires line.Nested?
  {
    if line.entry.None? then Fail(st, no, MalformedEntry(key))
    else if line.entry.value == "" then Fail(st, no, EmptyEntry(key))
    else Extend(st, key, [line.entry.value])
  }

  function Step(st: State, no: nat, line: Line): State
  {
    match line
    case Ignored => st
    case BadTop => Fail(st, no, MalformedTopLevel)
    case Top(_, _, _, _) => TopLevelStep(st, no, line)
    case Nested(_, _, _) =>
      if st.inSignals then SignalsStep(st, no, line)
      else if st.openList.Some? then EntryStep(st, no, line, st.openList.value)
      else Fail(st, no, UnexpectedIndent)
  }

  function ParseLine(st: State, no: nat, raw: string): State
  {
    Step(st, no, Classify(raw))
  }

  /** The state after reading `lines`, the first of which is line `no + 1` of the text. */
  ghost function ParseFrom(st: State, no: nat, lines: seq<string>): State
  {
    FoldLines(ParseLine, st, no, lines)
  }

  ghost function Parse(text: string): Parsed
  {
    ParseFrom(START, 0, SplitLines(text)).out
  }

  method ParseManifest(text: string) returns (parsed: Parsed)
    ensures parsed == Parse(text)
  {
    var st := START;
    var lines := SplitLines(text);
    for i := 0 to |lines|
      invariant ParseFrom(st, i, lines[i..]) == ParseFrom(START, 0, lines)
    {
      st := ParseLine(st, i + 1, lines[i]);
    }
    parsed := st.out;
  }

  // ---------------------------------------------------------------------
  // What every parse returns is clean
  // ---------------------------------------------------------------------

  /** Non-empty, trimmed and on one line. */
  predicate Clean(v: string)
  {
    v != "" && Trimmed(v) && SingleLine(v)
  }

  ghost predicate CleanOutput(out: Parsed)
  {
    && (forall k <- out.scalars :: Clean(out.scalars[k]))
    && (forall k <- out.lists :: forall v <- out.lists[k] :: Clean(v))
    && (forall s <- out.signals :: IsSignalKey(s.0) && Clean(s.1))
  }

  lemma SliceStaysSingleLine(s: string, i: nat, j: nat)
    requires SingleLine(s) && i <= j <= |s|
    ensures SingleLine(s[i..j])
  {
  }

  lemma UnquoteCleans(v: string)
    requires SingleLine(v)
    ensures Unquote(v) == "" || Clean(Unquote(v))
  {
    StripTrims(v);
    var t := Strip(v);
    if Wrapped(t) {
      SliceStaysSingleLine(t, 1, |t| - 1);
      StripTrims(t[1..|t| - 1]);
    }
  }

  lemma {:induction false} UnquoteAllCleans(parts: seq<string>)
    requires forall p <- parts :: SingleLine(p)
    ensures forall v <- UnquoteAll(parts) :: Clean(v)
  {
    if parts != [] {
      UnquoteCleans(parts[0]);
      UnquoteAllCleans(parts[1..]);
    }
  }

  lemma InnerCleans(v: string, inner: string)
    requires SingleLine(v) && |v| >= 2 && inner == Strip(v[1..|v| - 1])
    ensures forall u <- UnquoteAll(SplitAt(inner, ',')) :: Clean(u)
  {
    SliceStaysSingleLine(v, 1, |v| - 1);
    StripTrims(v[1..|v| - 1]);
    SplitSingleLine(inner, ',');
    UnquoteAllCleans(SplitAt(inner, ','));
  }

  lemma InlineListCleans(value: string)
    requires SingleLine(value)
    ensures ParseInlineList(value).Some? ==> forall v <- ParseInlineList(value).value :: Clean(v)
  {
    StripTrims(value);
    var v := Strip(value);
    if |v| >= 2 && v[0] == '[' && v[|v| - 1] == ']' {
      InnerCleans(v, Strip(v[1..|v| - 1]));
    }
  }

  ghost predicate CleanLine(line: Line)
  {
    match line
    case Ignored => true
    case BadTop => true
    case Top(_, _, scalar, items) =>
      (scalar == "" || Clean(scalar)) && (items.Some? ==> forall v <- items.value :: Clean(v))
    case Nested(_, signal, entry) =>
      && (signal.Some? ==> IsSignalKey(signal.value.0) && (signal.value.1 == "" || Clean(signal.value.1)))
      && (entry.Some? ==> entry.value == "" || Clean(entry.value))
  }

  lemma MatchTopIsSingleLine(raw: string)
    requires SingleLine(raw)
    ensures MatchTopLevel(raw).Some? ==> SingleLine(MatchTopLevel(raw).value.1)
  {
  }

  lemma TopIsClean(raw: string, val: string)
    requires MatchTopLevel(raw).Some? && val == MatchTopLevel(raw).value.1 && SingleLine(val)
    ensures CleanLine(ClassifyTop(raw))
  {
    UnquoteCleans(val);
    InlineListCleans(val);
  }

  lemma SignalIsClean(raw: string)
    requires SingleLine(raw)
    ensures MatchSignal(raw).Some? ==>
              Unquote(MatchSignal(raw).value.1) == "" || Clean(Unquote(MatchSignal(raw).value.1))
  {
    if MatchSignal(raw).Some? {
      var tail := raw[5..];
      var rest := LStrip(tail);
      var n := Span(IsSignalChar, rest, 0);
      SliceStaysSingleLine(raw, 5, |raw|);
      SliceStaysSingleLine(tail, |tail| - |rest|, |tail|);
      SliceStaysSingleLine(rest, n + 1, |rest|);
      StripTrims(rest[n + 1..]);
      UnquoteCleans(Strip(rest[n + 1..]));
    }
  }

  lemma EntryIsClean(raw: string)
    requires SingleLine(raw)
    ensures MatchEntry(raw).Some? ==>
              Unquote(MatchEntry(raw).value) == "" || Clean(Unquote(MatchEntry(raw).value))
  {
    if MatchEntry(raw).Some? {
      SliceStaysSingleLine(raw, 3, |raw|);
      StripTrims(raw[3..]);
      UnquoteCleans(Strip(raw[3..]));
    }
  }

  lemma ClassifyIsClean(raw: string)
    requires SingleLine(raw)
    ensures CleanLine(Classify(raw))
  {
    MatchTopIsSingleLine(raw);
    if MatchTopLevel(raw).Some? {
      TopIsClean(raw, MatchTopLevel(raw).value.1);
    }
    SignalIsClean(raw);
    EntryIsClean(raw);
  }

  lemma ExtendKeepsClean(st: State, key: string, values: seq<string>)
    requires CleanOutput(st.out) && forall v <- values :: Clean(v)
    ensures CleanOutput(Extend(st, key, values).out)
  {
  }

  lemma TopKeepsClean(st: State, no: nat, line: Line)
    requires CleanOutput(st.out) && CleanLine(line) && line.Top?
    ensures CleanOutput(TopLevelStep(st, no, line).out)
  {
    if line.items.Some? {
      ExtendKeepsClean(st.(inSignals := false, openList := None), line.key, line.items.value);
    }
  }

  lemma SignalsKeepClean(st: State, no: nat, line: Line)
    requires CleanOutput(st.out) && CleanLine(line) && line.Nested?
    ensures CleanOutput(SignalsStep(st, no, line).out)
  {
  }

  lemma EntryKeepsClean(st: State, no: nat, line: Line, key: string)
    requires CleanOutput(st.out) && CleanLine(line) && line.Nested?
    ensures CleanOutput(EntryStep(st, no, line, key).out)
  {
    if line.entry.Some? && line.entry.value != "" {
      ExtendKeepsClean(st, key, [line.entry.value]);
    }
  }

  lemma StepKeepsClean(st: State, no: nat, line: Line)
    requires CleanOutput(st.out) && CleanLine(line)
    ensures CleanOutput(Step(st, no, line).out)
  {
    match line
    case Ignored =>
    case BadTop =>
    case Top(_, _, _, _) => TopKeepsClean(st, no, line);
    case Nested(_, _, _) =>
      SignalsKeepClean(st, no, line);
      if st.openList.Some? {
        EntryKeepsClean(st, no, line, st.openList.value);
      }
  }

  /** Whatever the text, every value read from it is non-empty, trimmed and single-line. */
  lemma ParseIsClean(text: string)
    ensures CleanOutput(Parse(text))
  {
    var clean := (st: State) => CleanOutput(st.out);
    forall st, no, raw | clean(st) && SingleLine(raw)
      ensures clean(ParseLine(st, no, raw))
    {
      ClassifyIsClean(raw);
      StepKeepsClean(st, no, Classify(raw));
    }
    FoldInvariant(ParseLine, clean, START, 0, SplitLines(text));
  }
}
