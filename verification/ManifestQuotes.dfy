/** Values written with quotes around them, and lists written on one line. */
module ManifestQuotes {
  import opened Options
  import opened PyText
  import opened ManifestParser
  import opened ManifestFactory
  import opened ManifestRoundTrip

  const QUOTES: set<string> := {"'", "\""}

  /** Between any pair of matching quotes the stripped text is the value; without quotes the text itself. */
  lemma QuotesAreRemoved(v: string, q: string)
    requires q in QUOTES
    ensures Unquote(q + v + q) == Strip(v)
    ensures Trimmed(v) && !Wrapped(v) ==> Unquote(v) == v
  {
    QuotedText(v, q[0], q + v + q);
    StripTrims(v);
  }

  lemma QuotedText(v: string, c: char, w: string)
    requires (c == '\'' || c == '"') && w == [c] + v + [c]
    ensures Unquote(w) == Strip(v)
  {
    assert w[0] == c && w[|w| - 1] == c && w[1..|w| - 1] == v;
    StripTrims(w);
  }

  /** A list entry in quotes is read as what stands between them. */
  lemma QuotedEntryIsRead(v: string, q: string, raw: string)
    requires q in QUOTES && SingleLine(v) && raw == Item(q + v + q)
    ensures Classify(raw).Nested? && Classify(raw).entry == Some(Strip(v))
  {
    QuotedIsClean(v, q);
    QuotesAreRemoved(v, q);
    ItemShape(q + v + q);
  }

  lemma QuotedIsClean(v: string, q: string)
    requires q in QUOTES && SingleLine(v)
    ensures Clean(q + v + q)
  {
    var w := q + v + q;
    assert w[0] == q[0] && w[|w| - 1] == q[0];
  }

  /** `w` writes the value `v`: between quotes of either kind, or as it is where that is not itself quoted. */
  ghost predicate Writes(w: string, v: string)
  {
    (w == v && !Wrapped(v)) || exists q <- QUOTES :: w == q + v + q
  }

  ghost predicate WritesAll(ws: seq<string>, vs: seq<string>)
  {
    |ws| == |vs| && forall i :: 0 <= i < |vs| ==> Writes(ws[i], vs[i])
  }

  /** `w` is `m` with any of its values put in quotes. */
  ghost predicate WritesManifest(w: Manifest, m: Manifest)
  {
    && Writes(w.addonKey, m.addonKey) && Writes(w.addonClass, m.addonClass) && w.rulebookName == m.rulebookName
    && WritesAll(w.pathRoots, m.pathRoots) && WritesAll(w.ownsSurfaces, m.ownsSurfaces)
    && WritesAll(w.touchesSurfaces, m.touchesSurfaces)
    && WritesAll(w.capabilitiesAny, m.capabilitiesAny) && WritesAll(w.capabilitiesAll, m.capabilitiesAll)
    && |w.signals| == |m.signals|
    && forall i :: 0 <= i < |m.signals| ==> w.signals[i].0 == m.signals[i].0 && Writes(w.signals[i].1, m.signals[i].1)
  }

  lemma WrittenValue(w: string, v: string)
    requires Writes(w, v) && Clean(v)
    ensures Clean(w) && Unquote(w) == v
  {
    StripTrims(v);
    if w == v && !Wrapped(v) {
      QuotesAreRemoved(v, "'");
    } else {
      var q :| q in QUOTES && w == q + v + q;
      QuotedIsClean(v, q);
      QuotesAreRemoved(v, q);
    }
  }

  lemma WrittenValues(ws: seq<string>, vs: seq<string>)
    requires WritesAll(ws, vs) && AllClean(vs)
    ensures AllClean(ws) && Unquoted(ws) == vs && NonEmpty(Unquoted(ws)) == vs && NoBlanks(Unquoted(ws))
  {
    forall i | 0 <= i < |ws|
      ensures Clean(ws[i]) && Unquoted(ws)[i] == vs[i]
    {
      assert vs[i] in vs;
      WrittenValue(ws[i], vs[i]);
    }
    assert Unquoted(ws) == vs;
    NonEmptyIsShort(vs);
  }

  lemma WrittenSignals(c: string -> Line, ws: seq<(string, string)>, vs: seq<(string, string)>, items: seq<Line>)
    requires Mirrors(c) && |ws| == |vs| && items == MapSeq(c, SignalItems(ws))
    requires forall i :: 0 <= i < |vs| ==> ws[i].0 == vs[i].0 && Writes(ws[i].1, vs[i].1)
    requires forall s <- vs :: IsSignalKey(s.0) && Clean(s.1)
    ensures ReadSignals(items) == vs && forall line <- items :: ReadSignal(line) != []
  {
    forall k | 0 <= k < |items|
      ensures ReadSignal(items[k]) == [vs[k]]
    {
      assert vs[k] in vs;
      WrittenSignal(c, ws[k], vs[k]);
      assert items[k] == c(SignalItem(ws[k]));
    }
    AllReadBack(items, vs);
  }

  lemma WrittenSignal(c: string -> Line, w: (string, string), v: (string, string))
    requires Mirrors(c) && w.0 == v.0 && Writes(w.1, v.1) && IsSignalKey(v.0) && Clean(v.1)
    ensures ReadSignal(c(SignalItem(w))) == [v]
  {
    WrittenValue(w.1, v.1);
    SignalClass(w, Classify(SignalItem(w)));
    assert v == (v.0, v.1);
  }

  lemma WrittenIsClean(w: Manifest, m: Manifest)
    requires WritesManifest(w, m) && CleanValues(m) && forall s <- m.signals :: IsSignalKey(s.0)
    ensures CleanValues(w) && SingleLineKeys(w)
  {
    WrittenValue(w.addonKey, m.addonKey);
    WrittenValue(w.addonClass, m.addonClass);
    WrittenValues(w.pathRoots, m.pathRoots);
    WrittenValues(w.ownsSurfaces, m.ownsSurfaces);
    WrittenValues(w.touchesSurfaces, m.touchesSurfaces);
    WrittenValues(w.capabilitiesAny, m.capabilitiesAny);
    WrittenValues(w.capabilitiesAll, m.capabilitiesAll);
    forall i | 0 <= i < |w.signals|
      ensures Clean(w.signals[i].1) && SingleLine(w.signals[i].0)
    {
      assert m.signals[i] in m.signals;
      WrittenValue(w.signals[i].1, m.signals[i].1);
    }
  }

  lemma WrittenReading(w: Manifest, m: Manifest, r: Reading)
    requires WritesManifest(w, m) && CleanValues(m) && r == UnquotedReading(w)
    ensures Unchanged(m, r) && NothingEmpty(r) && r.book == "rules." + m.rulebookName + ".md"
  {
    WrittenValue(w.addonKey, m.addonKey);
    WrittenValue(w.addonClass, m.addonClass);
    WrittenValues(w.pathRoots, m.pathRoots);
    WrittenValues(w.ownsSurfaces, m.ownsSurfaces);
    WrittenValues(w.touchesSurfaces, m.touchesSurfaces);
    WrittenValues(w.capabilitiesAny, m.capabilitiesAny);
    WrittenValues(w.capabilitiesAll, m.capabilitiesAll);
  }

  /**
   A manifest of clean values, rendered with quotes around any of them, is read
   as those values. So what quotes would lose can always be written: with
   another pair of quotes around it.
   */
  lemma QuotedRoundTrip(m: Manifest, w: Manifest)
    requires WritesManifest(w, m) && CleanValues(m) && forall s <- m.signals :: IsSignalKey(s.0)
    ensures Parse(RenderManifest(w)) == Meaning(m)
  {
    WrittenIsClean(w, m);
    var c, r := CleanReading(w);
    WrittenRun(c, m, w, r);
  }

  lemma WrittenRun(c: string -> Line, m: Manifest, w: Manifest, r: Reading)
    requires WritesManifest(w, m) && CleanValues(m) && forall s <- m.signals :: IsSignalKey(s.0)
    requires Mirrors(c) && ReadsManifest(c, w, r, GoodSignal) && r == UnquotedReading(w)
    ensures Run(START, 0, MapSeq(c, ManifestLines(w))).out == Meaning(m)
  {
    var items := MapSeq(c, SignalItems(w.signals));
    WrittenReading(w, m, r);
    WrittenSignals(c, w.signals, m.signals, items);
    CleanIsNonEmpty(m);
    RunMeans(c, START, w, m, r, GoodSignal, items);
  }

  // ---------------------------------------------------------------------
  // Lists on one line
  // ---------------------------------------------------------------------

  lemma PartIsRead(part: string, v: string)
    requires Writes(Strip(part), v) && Clean(v)
    ensures Unquote(part) == v
  {
    StripTrims(part);
    StripTrims(Strip(part));
    WrittenValue(Strip(part), v);
  }

  lemma {:induction false} PartsAreRead(parts: seq<string>, vs: seq<string>)
    requires |parts| == |vs| && forall i :: 0 <= i < |vs| ==> Writes(Strip(parts[i]), vs[i]) && Clean(vs[i])
    ensures UnquoteAll(parts) == vs
  {
    if parts != [] {
      PartIsRead(parts[0], vs[0]);
      PartsAreRead(parts[1..], vs[1..]);
    }
  }

  /** `[a, "b"]` is read as the values written between its commas, when none of them holds a comma. */
  lemma InlineListIsRead(parts: seq<string>, vs: seq<string>, text: string)
    requires |parts| == |vs| && parts != [] && Trimmed(text) && text == Join([','], parts)
    requires forall i :: 0 <= i < |vs| ==> ',' !in parts[i] && Writes(Strip(parts[i]), vs[i]) && Clean(vs[i])
    ensures ParseInlineList("[" + text + "]") == Some(vs)
  {
    SplitOfJoin(parts, ',');
    PartsAreRead(parts, vs);
    if text == "" {
      assert SplitAt(text, ',') == [""] && parts[0] == "";
      WrittenValue(Strip(parts[0]), vs[0]);
    }
    BracketsAreRead(text, "[" + text + "]");
  }

  lemma BracketsAreRead(text: string, value: string)
    requires text != "" && Trimmed(text) && value == "[" + text + "]"
    ensures ParseInlineList(value) == Some(UnquoteAll(SplitAt(text, ',')))
  {
    StripTrims(value);
    StripTrims(text);
    assert value[1..|value| - 1] == text;
  }

  /** The list without entries. */
  lemma NoPartsAreRead(inner: string)
    requires AllSpace(inner)
    ensures ParseInlineList("[" + inner + "]") == Some([])
  {
    var whole := "[" + inner + "]";
    StripTrims(whole);
    assert whole[1..|whole| - 1] == inner;
    BlankMeans(inner);
  }

  /** A value that does not stand in brackets is not a list. */
  lemma OnlyBracketsAreRead(value: string)
    requires Trimmed(value)
    ensures value == "" || value[0] != '[' || value[|value| - 1] != ']' ==> ParseInlineList(value) == None
  {
    StripTrims(value);
  }

  // ---------------------------------------------------------------------
  // Lines with other spacing
  // ---------------------------------------------------------------------

  /** Blank lines and lines whose first visible character is a hash say nothing; no other line is passed over. */
  lemma SkippedLines(raw: string)
    ensures Classify(raw) == Ignored <==>
            AllSpace(raw) || exists i :: 0 <= i < |raw| && AllSpace(raw[..i]) && raw[i] == '#'
  {
    BlankMeans(raw);
    if !AllSpace(raw) {
      var i := Lead(raw, 0);
      assert i < |raw|;
      StripKeepsHead(raw, i);
      assert AllSpace(raw[..i]);
      forall k | 0 <= k < |raw| && AllSpace(raw[..k]) && raw[k] == '#'
        ensures k == i
      {
        assert forall j :: 0 <= j < k ==> raw[j] == raw[..k][j];
      }
    }
  }

  /** The other lines that do not start with a blank are key lines when a key and a colon come first, else malformed. */
  lemma KeyLines(raw: string)
    requires Classify(raw) != Ignored && raw[0] != ' '
    ensures Classify(raw).Top? <==> exists key, tail :: IsKey(key) && raw == key + ":" + tail
    ensures !Classify(raw).Top? ==> Classify(raw) == BadTop
  {
    if key, tail :| IsKey(key) && raw == key + ":" + tail {
      TopShape(raw, key, tail, Strip(tail));
    }
    if MatchTopLevel(raw).Some? {
      var key, tail := KeyOf(raw);
    }
  }

  lemma KeyOf(raw: string) returns (key: string, tail: string)
    requires MatchTopLevel(raw).Some?
    ensures IsKey(key) && raw == key + ":" + tail
  {
    var n := Span(IsKeyChar, raw, 0);
    key, tail := raw[..n], raw[n + 1..];
  }

  /** Below a list key: any two blanks, a dash, and the stripped rest. */
  lemma EntryIsRead(indent: string, tail: string, raw: string)
    requires |indent| == 2 && AllSpace(indent) && raw == indent + "-" + tail
    ensures MatchEntry(raw) == Some(Strip(tail))
  {
    assert raw[0] == indent[0] && raw[1] == indent[1] && raw[3..] == tail;
  }

  /** Below the signals header: any four blanks, a dash, any padding, then key, colon and value. */
  lemma SignalIsRead(indent: string, pad: string, key: string, tail: string, raw: string)
    requires |indent| == 4 && AllSpace(indent) && AllSpace(pad) && IsSignalKey(key)
    requires raw == indent + "-" + pad + key + ":" + tail
    ensures MatchSignal(raw) == Some((key, Strip(tail)))
  {
    var body := key + ":" + tail;
    assert raw == indent + "-" + pad + body;
    SpacedBody(indent, pad, body, raw, key);
    KeyedText(IsSignalChar, key, tail);
    MatchAsSignal(raw, body, key, Strip(tail));
  }

  lemma SpacedBody(indent: string, pad: string, body: string, raw: string, key: string)
    requires |indent| == 4 && AllSpace(indent) && AllSpace(pad) && raw == indent + "-" + pad + body
    requires IsSignalKey(key) && |key| <= |body| && body[..|key|] == key
    ensures |raw| >= 5 && Indented(raw, 4) && raw[4] == '-' && LStrip(raw[5..]) == body
  {
    assert body[0] == body[..|key|][0] && key[0] in key;
    assert raw[5..] == pad + body && raw[4] == '-';
    assert raw[..4] == indent && forall k :: 0 <= k < 4 ==> raw[k] == raw[..4][k];
    PaddingIsSkipped(pad, body);
  }

  lemma PaddingIsSkipped(pad: string, body: string)
    requires AllSpace(pad) && body != "" && !IsSpace(body[0])
    ensures LStrip(pad + body) == body
  {
    var rest := pad + body;
    assert rest[|pad|] == body[0] && forall k :: 0 <= k < |pad| ==> rest[k] == pad[k];
    StripKeepsHead(rest, |pad|);
    assert rest[|pad|..] == body;
  }

  /** The two modes, whatever blanks stand before and after them. */
  lemma ModeIsRead(indent: string, mode: string, tail: string, raw: string)
    requires |indent| == 2 && AllSpace(indent) && AllSpace(tail) && (mode == "any" || mode == "all")
    requires raw == indent + mode + ":" + tail
    ensures MatchMode(raw) == Some(mode)
  {
    assert raw[0] == indent[0] && raw[1] == indent[1] && raw[2..5] == mode && raw[5] == ':' && raw[6..] == tail;
    BlankMeans(tail);
  }

  /** The alphabets of signal keys and of top-level keys. */
  lemma KeyAlphabets(c: char)
    ensures IsSignalChar(c) <==> c in SMALL_LETTERS || c == '_'
    ensures IsKeyStart(c) <==> c in SMALL_LETTERS || c in CAPITAL_LETTERS || c == '_'
    ensures IsKeyChar(c) <==> c in SMALL_LETTERS || c in CAPITAL_LETTERS || c in DIGITS || c == '_' || c == '-'
  {
  }

  /** The alphabets of the names the factory takes. */
  lemma NameAlphabets(s: string)
    ensures IsAddonKey(s) <==>
            && s != "" && s[0] !in DIGITS
            && forall c <- s :: c in SMALL_LETTERS || c in CAPITAL_LETTERS || c in DIGITS
    ensures IsRulebookName(s) <==>
            && s != "" && s[0] != '.' && s[0] != '-'
            && forall c <- s :: c in SMALL_LETTERS || c in DIGITS || c == '.' || c == '-'
  {
    forall c: char
      ensures IsLetter(c) <==> c in SMALL_LETTERS || c in CAPITAL_LETTERS
      ensures IsLowerOrDigit(c) <==> c in SMALL_LETTERS || c in DIGITS
    {
    }
  }
}
