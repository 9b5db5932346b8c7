/** What the reading of plan lines means: words, leading marks, pieces between semicolons, kinds. */
module PlanReading {
  import opened PyText
  import opened Casing
  import opened TextOrder
  import opened ContractValidator
  import opened PlanCompiler

  // ---------------------------------------------------------------------
  // Words
  // ---------------------------------------------------------------------

  /** Index of the first whitespace, or the length. */
  function WordEnd(s: string): (n: nat)
    ensures n <= |s| && (forall k :: 0 <= k < n ==> !IsSpace(s[k])) && (n < |s| ==> IsSpace(s[n]))
  {
    if s != "" && !IsSpace(s[0]) then 1 + WordEnd(s[1..]) else 0
  }

  ghost predicate IsWord(w: string)
  {
    w != "" && forall c <- w :: !IsSpace(c)
  }

  /** The stretches of visible characters, in order. */
  ghost function Words(s: string): (words: seq<string>)
    ensures forall w <- words :: IsWord(w)
    decreases |s|
  {
    if s == "" then []
    else if IsSpace(s[0]) then Words(s[1..])
    else [s[..WordEnd(s)]] + Words(s[WordEnd(s)..])
  }

  lemma {:induction false} WordsAfterSpace(s: string, n: nat)
    requires n <= |s| && forall k :: 0 <= k < n ==> IsSpace(s[k])
    ensures Words(s) == Words(s[n..])
  {
    if n == 0 {
      assert s[0..] == s;
    } else {
      WordsAfterSpace(s[1..], n - 1);
      assert s[1..][n - 1..] == s[n..];
    }
  }

  lemma {:induction false} SqueezeWord(s: string)
    ensures Squeeze(s) == s[..WordEnd(s)] + Squeeze(s[WordEnd(s)..])
  {
    if s != "" && !IsSpace(s[0]) {
      var n := WordEnd(s[1..]);
      SqueezeWord(s[1..]);
      assert s[1..][..n] == s[1..n + 1] && s[1..][n..] == s[n + 1..];
      assert [s[0]] + s[1..n + 1] == s[..n + 1];
    } else {
      assert s[..0] == "" && s[0..] == s;
    }
  }

  lemma JoinCons(w: string, words: seq<string>)
    ensures Join(" ", [w] + words) == if words == [] then w else w + " " + Join(" ", words)
  {
    assert ([w] + words)[1..] == words;
  }

  /** What follows the first word: nothing, one blank for whitespace to the end, or a blank and the next word. */
  lemma Gap(rest: string, next: string)
    requires rest != "" && IsSpace(rest[0]) && next == rest[Lead(rest, 0)..]
    ensures Squeeze(rest) == " " + Squeeze(next) && Words(rest) == Words(next) && |next| < |rest|
    ensures next == "" ==> IsSpace(rest[|rest| - 1])
    ensures next != "" ==> !IsSpace(next[0]) && next[|next| - 1] == rest[|rest| - 1]
  {
    WordsAfterSpace(rest, Lead(rest, 0));
  }

  ghost function Tail(s: string): string
    requires s != ""
  {
    if IsSpace(s[|s| - 1]) then " " else ""
  }

  /** A text that starts visibly comes to its words with single blanks between, and one more if it ends in whitespace. */
  lemma {:induction false} SqueezeIsWords(s: string)
    requires s != "" && !IsSpace(s[0])
    ensures Words(s) != [] && Squeeze(s) == Join(" ", Words(s)) + Tail(s)
    decreases |s|
  {
    var n := WordEnd(s);
    var w, rest := s[..n], s[n..];
    SqueezeWord(s);
    if rest == "" {
      assert w == s && Squeeze("") == "" && Words("") == [];
      JoinCons(w, []);
    } else {
      var next := rest[Lead(rest, 0)..];
      Gap(rest, next);
      JoinCons(w, Words(next));
      if next != "" {
        SqueezeIsWords(next);
        Glued(w, Join(" ", Words(next)), Tail(next), Squeeze(next));
      }
    }
  }

  lemma Glued(w: string, j: string, tail: string, next: string)
    requires next == j + tail
    ensures w + (" " + next) == (w + " " + j) + tail
  {
  }

  lemma {:induction false} JoinedWordsAreTrimmed(words: seq<string>)
    requires words != [] && forall w <- words :: IsWord(w)
    ensures var j := Join(" ", words); j != "" && !IsSpace(j[0]) && !IsSpace(j[|j| - 1])
  {
    var w := words[0];
    assert w in words && w[0] in w && w[|w| - 1] in w;
    if |words| > 1 {
      JoinedWordsAreTrimmed(words[1..]);
    }
  }

  /** Squeezing and stripping comes to joining the words with single blanks. */
  lemma NormalTextIsWords(s: string)
    ensures Strip(Squeeze(s)) == Join(" ", Words(s))
  {
    if s == "" || !IsSpace(s[0]) {
      VisibleText(s, "");
      assert "" + Squeeze(s) == Squeeze(s);
    } else {
      var next := s[Lead(s, 0)..];
      Gap(s, next);
      VisibleText(next, " ");
    }
  }

  lemma VisibleText(s: string, pre: string)
    requires (s == "" || !IsSpace(s[0])) && (pre == "" || pre == " ")
    ensures Strip(pre + Squeeze(s)) == Join(" ", Words(s))
  {
    if s == "" {
      BlankMeans(pre + "");
    } else {
      SqueezeIsWords(s);
      JoinedWordsAreTrimmed(Words(s));
      Surrounded(pre, Join(" ", Words(s)), Tail(s), Squeeze(s));
    }
  }

  lemma Surrounded(pre: string, j: string, tail: string, s: string)
    requires AllSpace(pre) && AllSpace(tail) && Trimmed(j) && s == j + tail
    ensures Strip(pre + s) == j
  {
    assert pre + s == pre + j + tail;
    MiddleIsStripped(pre + s, pre, j, tail);
  }

  // ---------------------------------------------------------------------
  // Leading marks
  // ---------------------------------------------------------------------

  /** A gap and what follows it. */
  ghost predicate GapThen(tail: string, gap: string, rest: string)
  {
    tail == gap + rest && gap != "" && AllSpace(gap) && (rest == "" || !IsSpace(rest[0]))
  }

  ghost predicate AfterGap(tail: string, rest: string)
  {
    exists gap :: GapThen(tail, gap, rest)
  }

  lemma LeadOfGap(s: string, i: nat, gap: string, rest: string)
    requires i <= |s| && GapThen(s[i..], gap, rest)
    ensures s[Lead(s, i)..] == rest && i < |s| && IsSpace(s[i])
  {
    assert forall k :: i <= k < i + |gap| ==> s[k] == s[i..][k - i] == gap[k - i];
    assert rest != "" ==> s[i + |gap|] == s[i..][|gap|] == rest[0];
    assert Lead(s, i) == i + |gap|;
    assert s[i + |gap|..] == s[i..][|gap|..];
  }

  lemma GapOf(s: string, i: nat) returns (gap: string, rest: string)
    requires i < |s| && IsSpace(s[i])
    ensures GapThen(s[i..], gap, rest) && rest == s[Lead(s, i)..]
  {
    gap, rest := s[i..Lead(s, i)], s[Lead(s, i)..];
  }

  /** A bullet is a dash or a star with whitespace after it. */
  ghost predicate Bulleted(s: string, rest: string)
  {
    s != "" && (s[0] == '-' || s[0] == '*') && AfterGap(s[1..], rest)
  }

  lemma BulletIsDropped(s: string)
    ensures forall rest :: Bulleted(s, rest) ==> DropBullet(s) == rest
    ensures (forall rest :: !Bulleted(s, rest)) ==> DropBullet(s) == s
  {
    forall rest | Bulleted(s, rest)
      ensures DropBullet(s) == rest
    {
      var gap :| GapThen(s[1..], gap, rest);
      LeadOfGap(s, 1, gap, rest);
    }
    if |s| >= 2 && (s[0] == '-' || s[0] == '*') && IsSpace(s[1]) {
      var gap, rest := GapOf(s, 1);
      assert Bulleted(s, rest);
    }
  }

  /** A number is a run of digits, a dot or a closing parenthesis, and whitespace. */
  ghost predicate NumberedAt(h: Host, s: string, n: nat, rest: string)
  {
    && 0 < n < |s| && (forall k :: 0 <= k < n ==> IsDigit(h, s[k])) && (s[n] == '.' || s[n] == ')')
    && AfterGap(s[n + 1..], rest)
  }

  lemma {:induction false} DigitsAre(h: Host, s: string, i: nat, n: nat)
    requires i <= n < |s| && (forall k :: i <= k < n ==> IsDigit(h, s[k])) && !IsDigit(h, s[n])
    ensures DigitsEnd(h, s, i) == n
    decreases n - i
  {
    if i < n {
      DigitsAre(h, s, i + 1, n);
    }
  }

  lemma {:induction false} DigitsUpTo(h: Host, s: string, i: nat)
    requires i <= |s|
    ensures forall k :: i <= k < DigitsEnd(h, s, i) ==> IsDigit(h, s[k])
    decreases |s| - i
  {
    if i < |s| && IsDigit(h, s[i]) {
      DigitsUpTo(h, s, i + 1);
    }
  }

  lemma NumberIsDropped(h: Host, s: string)
    ensures forall n: nat, rest :: NumberedAt(h, s, n, rest) ==> DropNumber(h, s) == rest
    ensures (forall n: nat, rest :: !NumberedAt(h, s, n, rest)) ==> DropNumber(h, s) == s
  {
    forall n: nat, rest | NumberedAt(h, s, n, rest)
      ensures DropNumber(h, s) == rest
    {
      var gap :| GapThen(s[n + 1..], gap, rest);
      LeadOfGap(s, n + 1, gap, rest);
      DigitsAre(h, s, 0, n);
    }
    var n := DigitsEnd(h, s, 0);
    if 0 < n && n + 1 < |s| && (s[n] == '.' || s[n] == ')') && IsSpace(s[n + 1]) {
      DigitsUpTo(h, s, 0);
      var gap, rest := GapOf(s, n + 1);
      assert NumberedAt(h, s, n, rest);
    }
  }

  /** A line is read as its words, after a bullet and a number in front of them. */
  lemma LineIsWords(h: Host, raw: string)
    ensures NormalizeLine(h, raw) == Join(" ", Words(DropNumber(h, DropBullet(Strip(raw)))))
  {
    NormalTextIsWords(DropNumber(h, DropBullet(Strip(raw))));
  }

  // ---------------------------------------------------------------------
  // Pieces
  // ---------------------------------------------------------------------

  ghost function TextsOf(segments: seq<Segment>): (r: seq<string>)
    ensures |r| == |segments| && forall i :: 0 <= i < |r| ==> r[i] == segments[i].text
  {
    seq(|segments|, i requires 0 <= i < |segments| => segments[i].text)
  }

  lemma {:induction false} AtomTexts(h: Host, parts: seq<string>)
    ensures TextsOf(Atoms(h, parts)) == StripAll(parts)
    ensures forall s <- Atoms(h, parts) :: s.kind == InferKind(h, s.text)
  {
    if parts != [] {
      AtomTexts(h, parts[1..]);
    }
  }

  /** A line that is no heading gives the visible pieces between its semicolons, stripped and in order. */
  lemma LinePieces(h: Host, raw: string, pieces: seq<string>)
    requires pieces != [] && (forall p <- pieces :: ';' !in p)
    requires NormalizeLine(h, raw) == Join([';'], pieces) && !IsHeading(h, NormalizeLine(h, raw))
    ensures TextsOf(LineSegments(h, raw)) == StripAll(pieces)
    ensures forall s <- LineSegments(h, raw) :: s.kind == InferKind(h, s.text)
  {
    SplitOfJoin(pieces, ';');
    AtomTexts(h, pieces);
    if NormalizeLine(h, raw) == "" {
      assert SplitAt("", ';') == [""];
      StripAllOne("");
    }
  }

  /** The same for a whole plan of one line. */
  lemma OneLinePlan(h: Host, text: string, pieces: seq<string>)
    requires SingleLine(text) && pieces != [] && (forall p <- pieces :: ';' !in p)
    requires NormalizeLine(h, text) == Join([';'], pieces) && !IsHeading(h, NormalizeLine(h, text))
    ensures TextsOf(SegmentsOf(h, text)) == StripAll(pieces)
  {
    LinePieces(h, text, pieces);
    OneLine(h, text);
  }

  lemma OneLine(h: Host, text: string)
    requires SingleLine(text)
    ensures SegmentsOf(h, text) == LineSegments(h, text)
  {
    SplitsAtBreaks(text, "", "");
    if text == "" {
      BlankLine(h);
    } else {
      LinesOfOne(h, text);
    }
  }

  lemma LinesOfOne(h: Host, line: string)
    ensures LinesSegments(h, [line]) == LineSegments(h, line)
  {
    assert [line][1..] == [];
    assert LineSegments(h, line) + [] == LineSegments(h, line);
  }

  lemma BlankLine(h: Host)
    ensures NormalizeLine(h, "") == "" && LineSegments(h, "") == []
  {
    LineIsWords(h, "");
  }

  /** A plan of several lines gives the segments of each line in turn, whichever breaks are between them. */
  lemma LineByLine(h: Host, line: string, brk: string, rest: string)
    requires SingleLine(line) && IsBreak(brk, rest)
    ensures SegmentsOf(h, line + brk + rest) == LineSegments(h, line) + SegmentsOf(h, rest)
  {
    SplitsAtBreaks(line, brk, rest);
    assert ([line] + SplitLines(rest))[1..] == SplitLines(rest);
  }

  // ---------------------------------------------------------------------
  // Kinds, headings, methods and hotspots, by the words that occur
  // ---------------------------------------------------------------------

  const FORBIDDING: seq<string> :=
    ["no ", "never ", "must not ", "do not ", "don't ", "without ", "forbid ", "forbidden "]
  const SURFACE: seq<string> := ["render", "visible", "output", "surface", "next action"]
  const STATEFUL: seq<string> := ["receipt", "presentation", "evidence", "state", "persist", "matrix"]
  const FLOW: seq<string> := ["flow", "gate", "decision", "implement", "review", "live", "command"]
  const RECEIPT: seq<string> := ["receipt", "presentation", "decision", "evidence"]
  const GOVERNANCE: seq<string> :=
    [" phase ", " gate ", "decision semantics", "state-machine", "review package", "reason-code contract"]

  ghost predicate Forbids(lower: string)
  {
    exists w <- FORBIDDING :: |w| <= |Strip(lower)| && Strip(lower)[..|w|] == w
  }

  /** The four kinds share the texts out: prohibitions first, then what users see, then what is kept. */
  lemma KindMeans(h: Host, text: string, lower: string)
    requires lower == Lower(h, text)
    ensures InferKind(h, text) == Forbidden <==> Forbids(lower)
    ensures InferKind(h, text) == UserVisible <==> !Forbids(lower) && SomeOccurs(lower, SURFACE)
    ensures InferKind(h, text) == StateKind <==>
              !Forbids(lower) && !SomeOccurs(lower, SURFACE) && SomeOccurs(lower, STATEFUL)
  {
    AnyIsSome(lower, SURFACE);
    AnyIsSome(lower, STATEFUL);
    assert LooksForbidden(h, text) == StartsWithAny(Strip(lower), FORBIDDING);
    StartsIsPrefix(Strip(lower), FORBIDDING);
  }

  lemma StartsIsPrefix(text: string, words: seq<string>)
    ensures StartsWithAny(text, words) <==> exists w <- words :: |w| <= |text| && text[..|w|] == w
  {
  }

  /** Segments about governance itself. */
  lemma MetaMeans(h: Host, text: string)
    ensures IsMeta(h, text) <==> SomeOccurs(" " + Lower(h, text) + " ", GOVERNANCE)
  {
    AnyIsSome(" " + Lower(h, text) + " ", GOVERNANCE);
  }

  /** A line that starts with a hash is a heading, and so are the names of the plan's sections in any case. */
  lemma HeadingMeans(h: Host, line: string)
    ensures IsHeading(h, line) <==>
            || (line != "" && line[0] == '#')
            || Lower(h, line) in {"required behavior", "forbidden behavior", "user-visible expectation",
                                  "state expectation", "code hotspots", "verification methods", "acceptance tests",
                                  "done criteria"}
  {
  }

  /** Which methods a requirement calls for, in the order of their names. */
  lemma MethodsMean(h: Host, title: string, required: string, forbidden: string, kind: Kind, text: string, ms: seq<string>)
    requires text == Lower(h, title + " " + required + " " + forbidden)
    requires ms == InferMethods(h, title, required, forbidden, kind)
    ensures "static_verification" in ms && "behavioral_verification" in ms
    ensures "user_surface_verification" in ms <==> kind == UserVisible || SomeOccurs(text, SURFACE)
    ensures "live_flow_verification" in ms <==> SomeOccurs(text, FLOW)
    ensures "receipts_verification" in ms <==> kind == StateKind || SomeOccurs(text, RECEIPT)
  {
    AnyIsSome(text, SURFACE);
    AnyIsSome(text, FLOW);
    AnyIsSome(text, RECEIPT);
    MethodNamesDiffer();
  }

  lemma MethodNamesDiffer()
    ensures STATIC[0] == 's' && BEHAVIORAL[0] == 'b' && USER_SURFACE[0] == 'u' && LIVE_FLOW[0] == 'l' && RECEIPTS[0] == 'r'
  {
  }

  /** The methods are listed in ascending order. */
  lemma MethodsAreSorted(h: Host, title: string, required: string, forbidden: string, kind: Kind)
    ensures Ascending(InferMethods(h, title, required, forbidden, kind))
  {
    MethodNamesDiffer();
    var text := Lower(h, title + " " + required + " " + forbidden);
    PickedAscend(BEHAVIORAL, LIVE_FLOW, RECEIPTS, STATIC, USER_SURFACE, ContainsAny(text, FLOW_WORDS),
                 kind == StateKind || ContainsAny(text, RECEIPT_WORDS),
                 kind == UserVisible || ContainsAny(text, SURFACE_WORDS),
                 InferMethods(h, title, required, forbidden, kind));
  }

  lemma PickedAscend(a: string, b: string, c: string, d: string, e: string, p: bool, q: bool, r: bool, ms: seq<string>)
    requires Less(a, b) && Less(a, c) && Less(a, d) && Less(a, e) && Less(b, c) && Less(b, d) && Less(b, e)
    requires Less(c, d) && Less(c, e) && Less(d, e)
    requires ms == [a] + (if p then [b] else []) + (if q then [c] else []) + [d] + (if r then [e] else [])
    ensures Ascending(ms)
  {
    var two := AscendWith([a], b, p);
    var three := AscendWith(two, c, q);
    var four := AscendWith(three, d, true);
    var five := AscendWith(four, e, r);
  }

  lemma AscendWith(s: seq<string>, x: string, p: bool) returns (t: seq<string>)
    requires Ascending(s) && forall y <- s :: Less(y, x)
    ensures t == s + (if p then [x] else []) && Ascending(t)
    ensures forall y <- t :: y in s || y == x
  {
    t := s + if p then [x] else [];
  }

  lemma Picked(a: string, b: string, c: string, d: string, e: string, p: bool, q: bool, r: bool, t: bool,
               hs: seq<string>)
    requires a != b && a != c && a != d && a != e && b != c && b != d && b != e && c != d && c != e && d != e
    requires hs == [a] + (if p then [b] else []) + (if q then [c] else []) + (if r then [d] else [])
                   + (if t then [e] else [])
    ensures hs[0] == a && (b in hs <==> p) && (c in hs <==> q) && (d in hs <==> r) && (e in hs <==> t)
  {
  }

  lemma PathsDiffer(a: string, b: string, c: string, d: string, e: string)
    requires a == ENTRYPOINTS + "session_reader.py" && b == ENTRYPOINTS + "implement_start.py"
    requires c == ENTRYPOINTS + "review_decision_persist.py" && d == ENTRYPOINTS + "implementation_decision_persist.py"
    requires e == RUNTIME + "receipts/match.py"
    ensures a != b && a != c && a != d && a != e && b != c && b != d && b != e && c != d && c != e && d != e
  {
    assert |RUNTIME| == 19 && |ENTRYPOINTS| == 31;
    assert |a| == 48 && |b| == 49 && |c| == 57 && |d| == 65 && |e| == 36;
  }

  /** Which files a requirement points at: the session reader always, the others by the words of the text. */
  lemma HotspotsMean(h: Host, text: string, lower: string, hs: seq<string>)
    requires lower == Lower(h, text) && hs == InferHotspots(h, text)
    ensures hs != [] && hs[0] == ENTRYPOINTS + "session_reader.py"
    ensures (ENTRYPOINTS + "implement_start.py") in hs <==> Occurs(lower, "implement")
    ensures (ENTRYPOINTS + "review_decision_persist.py") in hs <==>
              Occurs(lower, "review-decision") || Occurs(lower, "review decision")
    ensures (ENTRYPOINTS + "implementation_decision_persist.py") in hs <==>
              Occurs(lower, "implementation-decision") || Occurs(lower, "implementation decision")
    ensures (RUNTIME + "receipts/match.py") in hs <==> Occurs(lower, "receipt")
  {
    var a, b := ENTRYPOINTS + "session_reader.py", ENTRYPOINTS + "implement_start.py";
    var c := ENTRYPOINTS + "review_decision_persist.py";
    var d := ENTRYPOINTS + "implementation_decision_persist.py";
    var e := RUNTIME + "receipts/match.py";
    PathsDiffer(a, b, c, d, e);
    ContainsIsOccurs(lower, "implement");
    ContainsIsOccurs(lower, "receipt");
    EitherOccurs(lower, "review-decision", "review decision");
    EitherOccurs(lower, "implementation-decision", "implementation decision");
    Picked(a, b, c, d, e, Contains(lower, "implement"),
           ContainsAny(lower, ["review-decision", "review decision"]),
           ContainsAny(lower, ["implementation-decision", "implementation decision"]), Contains(lower, "receipt"), hs);
  }

  lemma EitherOccurs(lower: string, a: string, b: string)
    ensures ContainsAny(lower, [a, b]) <==> Occurs(lower, a) || Occurs(lower, b)
  {
    AnyIsSome(lower, [a, b]);
    assert a in [a, b] && b in [a, b];
  }
}
