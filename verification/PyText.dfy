/** The string operations the modelled code takes from its language: whitespace, strip, join, line splitting. */
module PyText {
  import opened Options

  /** The characters `str.isspace` and the regular-expression class `\s` accept. */
  predicate IsSpace(c: char)
  {
    var n := c as int;
    || 9 <= n <= 13 || 28 <= n <= 32 || n == 0x85 || n == 0xA0 || n == 0x1680
    || 0x2000 <= n <= 0x200A || n == 0x2028 || n == 0x2029 || n == 0x202F || n == 0x205F || n == 0x3000
  }

  /** The characters `str.splitlines` breaks a line at. */
  predicate IsLineBreak(c: char)
  {
    var n := c as int;
    10 <= n <= 13 || 28 <= n <= 30 || n == 0x85 || n == 0x2028 || n == 0x2029
  }

  // The characters of the classes that programs write as ranges, one by one.

  ghost const DIGITS: set<char> := {'0', '1', '2', '3', '4', '5', '6', '7', '8', '9'}
  ghost const SMALL_LETTERS: set<char> :=
    {'a', 'b', 'c', 'd', 'e', 'f', 'g', 'h', 'i', 'j', 'k', 'l', 'm',
     'n', 'o', 'p', 'q', 'r', 's', 't', 'u', 'v', 'w', 'x', 'y', 'z'}
  ghost const CAPITAL_LETTERS: set<char> :=
    {'A', 'B', 'C', 'D', 'E', 'F', 'G', 'H', 'I', 'J', 'K', 'L', 'M',
     'N', 'O', 'P', 'Q', 'R', 'S', 'T', 'U', 'V', 'W', 'X', 'Y', 'Z'}

  lemma SpacesAndBreaks(c: char)
    ensures IsSpace(c) <==>
            c as int in {9, 10, 11, 12, 13, 28, 29, 30, 31, 32, 133, 160, 5760, 8192, 8193, 8194, 8195, 8196, 8197, 8198,
                         8199, 8200, 8201, 8202, 8232, 8233, 8239, 8287, 12288}
    ensures IsLineBreak(c) <==> c as int in {10, 11, 12, 13, 28, 29, 30, 133, 8232, 8233}
  {
  }

  predicate SingleLine(s: string)
  {
    forall c <- s :: !IsLineBreak(c)
  }

  // ---------------------------------------------------------------------
  // strip
  // ---------------------------------------------------------------------

  /** Index of the first visible character at or after `i`, or the length. */
  function Lead(s: string, i: nat): (n: nat)
    requires i <= |s|
    ensures i <= n <= |s| && forall k :: i <= k < n ==> IsSpace(s[k])
    ensures n < |s| ==> !IsSpace(s[n])
    decreases |s| - i
  {
    if i < |s| && IsSpace(s[i]) then Lead(s, i + 1) else i
  }

  /** One past the last visible character before `j`, or `lo`. */
  function Trail(s: string, lo: nat, j: nat): (n: nat)
    requires lo <= j <= |s|
    ensures lo <= n <= j && forall k :: n <= k < j ==> IsSpace(s[k])
    ensures lo < n ==> !IsSpace(s[n - 1])
    decreases j
  {
    if lo < j && IsSpace(s[j - 1]) then Trail(s, lo, j - 1) else j
  }

  function LStrip(s: string): string
  {
    s[Lead(s, 0)..]
  }

  function Strip(s: string): string
  {
    var lo := Lead(s, 0);
    s[lo..Trail(s, lo, |s|)]
  }

  predicate Trimmed(s: string)
  {
    s != "" ==> !IsSpace(s[0]) && !IsSpace(s[|s| - 1])
  }

  /** Stripping yields a trimmed stretch of the text, and leaves trimmed text alone. */
  lemma StripTrims(s: string)
    ensures Trimmed(Strip(s))
    ensures Trimmed(s) ==> Strip(s) == s
    ensures SingleLine(s) ==> SingleLine(Strip(s))
  {
  }

  /** The first visible character survives stripping. */
  lemma StripKeepsHead(s: string, i: nat)
    requires i < |s| && !IsSpace(s[i]) && forall k :: 0 <= k < i ==> IsSpace(s[k])
    ensures LStrip(s) == s[i..]
    ensures Strip(s) != "" && Strip(s)[0] == s[i]
  {
    assert Lead(s, 0) == i;
  }

  predicate AllSpace(s: string)
  {
    forall c <- s :: IsSpace(c)
  }

  /** Every text is its stripped middle between two stretches of whitespace. */
  lemma StripIsMiddle(s: string) returns (pre: string, post: string)
    ensures s == pre + Strip(s) + post && AllSpace(pre) && AllSpace(post)
  {
    var lo := Lead(s, 0);
    var hi := Trail(s, lo, |s|);
    pre, post := s[..lo], s[hi..];
  }

  /** ... and only the trimmed text between them is what stripping gives. */
  lemma MiddleIsStripped(s: string, pre: string, v: string, post: string)
    requires AllSpace(pre) && AllSpace(post) && Trimmed(v) && s == pre + v + post
    ensures Strip(s) == v
  {
    var lo := Lead(s, 0);
    assert forall k :: 0 <= k < |pre| ==> s[k] == pre[k];
    assert forall k :: 0 <= k < |v| ==> s[|pre| + k] == v[k];
    assert forall k :: 0 <= k < |post| ==> s[|pre| + |v| + k] == post[k];
    if v == "" {
      assert AllSpace(s);
      assert lo == |s|;
    } else {
      assert s[|pre|] == v[0] && lo == |pre|;
      var hi := Trail(s, lo, |s|);
      assert s[|pre| + |v| - 1] == v[|v| - 1];
      assert hi == |pre| + |v|;
      assert s[lo..hi] == v;
    }
  }

  lemma BlankMeans(s: string)
    ensures Strip(s) == "" <==> AllSpace(s)
  {
    var pre, post := StripIsMiddle(s);
    if AllSpace(s) {
      MiddleIsStripped(s, s, "", "");
    } else {
      assert Strip(s) == "" ==> s == pre + post;
    }
  }

  /** An optional text, stripped; empty when it is absent. */
  function Trim(o: Option<string>): string
  {
    if o.Some? then Strip(o.value) else ""
  }

  /** The stripped values, without those that strip to nothing. */
  function StripAll(values: seq<string>): seq<string>
  {
    if values == [] then []
    else (if Strip(values[0]) == "" then [] else [Strip(values[0])]) + StripAll(values[1..])
  }

  /** One value gives itself, stripped, or nothing when it is blank. */
  lemma StripAllOne(v: string)
    ensures StripAll([v]) == if AllSpace(v) then [] else [Strip(v)]
  {
    BlankMeans(v);
    assert [v][1..] == [];
  }

  ghost predicate Tidy(values: seq<string>)
  {
    forall v <- values :: v != "" && Trimmed(v)
  }

  lemma {:induction false} StripAllTidies(values: seq<string>)
    ensures Tidy(StripAll(values))
  {
    if values != [] {
      StripTrims(values[0]);
      StripAllTidies(values[1..]);
    }
  }

  lemma {:induction false} StripAllKeeps(values: seq<string>)
    requires Tidy(values)
    ensures StripAll(values) == values
  {
    if values != [] {
      assert values[0] in values && forall v <- values[1..] :: v in values;
      StripTrims(values[0]);
      StripAllKeeps(values[1..]);
    }
  }

  // ---------------------------------------------------------------------
  // split
  // ---------------------------------------------------------------------

  function SplitAt(s: string, sep: char): (parts: seq<string>)
    ensures parts != []
  {
    if s == "" then [""]
    else
      var rest := SplitAt(s[1..], sep);
      if s[0] == sep then [""] + rest else [[s[0]] + rest[0]] + rest[1..]
  }

  /** No part holds the separator, and joined with it the parts give the text back. */
  lemma {:induction false} SplitParts(s: string, sep: char)
    ensures forall p <- SplitAt(s, sep) :: sep !in p
    ensures Join([sep], SplitAt(s, sep)) == s
  {
    if s != "" {
      SplitParts(s[1..], sep);
      var rest := SplitAt(s[1..], sep);
      assert s == [s[0]] + s[1..];
      if s[0] != sep {
        assert sep !in [s[0]] + rest[0];
        JoinHead([sep], s[0], rest);
      } else {
        assert ([""] + rest)[1..] == rest;
      }
    }
  }

  lemma JoinHead(sep: string, c: char, parts: seq<string>)
    requires parts != []
    ensures Join(sep, [[c] + parts[0]] + parts[1..]) == [c] + Join(sep, parts)
  {
    assert ([[c] + parts[0]] + parts[1..])[1..] == parts[1..];
  }

  /** Parts without the separator are what splitting their joined text gives. */
  lemma {:induction false} SplitOfJoin(parts: seq<string>, sep: char)
    requires parts != [] && forall p <- parts :: sep !in p
    ensures SplitAt(Join([sep], parts), sep) == parts
  {
    if |parts| == 1 {
      SplitHead(parts[0], "", sep);
      assert parts[0] + "" == parts[0];
      assert parts == [parts[0] + [""][0]] + [""][1..];
    } else {
      var tail := Join([sep], parts[1..]);
      SplitOfJoin(parts[1..], sep);
      assert Join([sep], parts) == parts[0] + ([sep] + tail);
      SplitHead(parts[0], [sep] + tail, sep);
      assert ([sep] + tail)[1..] == tail;
      assert SplitAt([sep] + tail, sep) == [""] + parts[1..];
      assert parts[0] + "" == parts[0];
    }
  }

  lemma {:induction false} SplitHead(head: string, tail: string, sep: char)
    requires sep !in head
    ensures var rest := SplitAt(tail, sep); SplitAt(head + tail, sep) == [head + rest[0]] + rest[1..]
  {
    if head == "" {
      assert head + tail == tail;
      assert "" + SplitAt(tail, sep)[0] == SplitAt(tail, sep)[0];
    } else {
      assert (head + tail)[1..] == head[1..] + tail && (head + tail)[0] == head[0];
      SplitHead(head[1..], tail, sep);
      assert [head[0]] + (head[1..] + SplitAt(tail, sep)[0]) == head + SplitAt(tail, sep)[0];
    }
  }

  lemma {:induction false} SplitSingleLine(s: string, sep: char)
    requires SingleLine(s)
    ensures forall p <- SplitAt(s, sep) :: SingleLine(p)
  {
    if s != "" {
      SplitSingleLine(s[1..], sep);
      var rest := SplitAt(s[1..], sep);
      assert s[0] in s && SingleLine(rest[0]);
      assert SingleLine([s[0]] + rest[0]);
    }
  }

  // ---------------------------------------------------------------------
  // join and splitlines
  // ---------------------------------------------------------------------

  function Join(sep: string, parts: seq<string>): string
  {
    if parts == [] then ""
    else if |parts| == 1 then parts[0]
    else parts[0] + sep + Join(sep, parts[1..])
  }

  /** Index of the first line break at or after `i`, or the length. */
  function LineEnd(s: string, i: nat): (n: nat)
    requires i <= |s|
    ensures i <= n <= |s| && forall k :: i <= k < n ==> !IsLineBreak(s[k])
    ensures n < |s| ==> IsLineBreak(s[n])
    decreases |s| - i
  {
    if i < |s| && !IsLineBreak(s[i]) then LineEnd(s, i + 1) else i
  }

  function SplitLines(s: string): (lines: seq<string>)
    ensures forall line <- lines :: SingleLine(line)
    decreases |s|
  {
    var n := LineEnd(s, 0);
    if s == "" then []
    else if n == |s| then [s]
    else
      var skip := if s[n] == '\r' && n + 1 < |s| && s[n + 1] == '\n' then 2 else 1;
      [s[..n]] + SplitLines(s[n + skip..])
  }

  /** Every line followed by a newline. */
  ghost function Unlines(lines: seq<string>): string
  {
    if lines == [] then "" else lines[0] + "\n" + Unlines(lines[1..])
  }

  /** A line break of any kind: one character, or the pair of carriage return and line feed. */
  predicate IsBreak(brk: string, rest: string)
  {
    || brk == "\r\n"
    || (|brk| == 1 && IsLineBreak(brk[0]) && !(brk == "\r" && rest != "" && rest[0] == '\n'))
  }

  /** A text is split after its first line, whichever break ends it; a text without a break is one line. */
  lemma SplitsAtBreaks(line: string, brk: string, rest: string)
    requires SingleLine(line)
    ensures IsBreak(brk, rest) ==> SplitLines(line + brk + rest) == [line] + SplitLines(rest)
    ensures SplitLines(line) == if line == "" then [] else [line]
  {
    if IsBreak(brk, rest) {
      var s := line + brk + rest;
      assert forall k :: 0 <= k < |line| ==> s[k] == line[k] && line[k] in line;
      assert s[|line|] == brk[0] && IsLineBreak(brk[0]);
      assert LineEnd(s, 0) == |line|;
      assert s[..|line|] == line && s[|line| + |brk|..] == rest;
      assert |brk| == 2 ==> s[|line| + 1] == '\n';
      assert |brk| == 1 && rest != "" ==> s[|line| + 1] == rest[0];
    }
  }

  /** Splitting undoes writing: single-line texts come back unchanged. */
  lemma {:induction false} SplitUnlines(lines: seq<string>)
    requires forall line <- lines :: SingleLine(line)
    ensures SplitLines(Unlines(lines)) == lines
  {
    if lines != [] {
      SplitsAtBreaks(lines[0], "\n", Unlines(lines[1..]));
      SplitUnlines(lines[1..]);
    }
  }

  lemma {:induction false} UnlinesAppend(a: seq<string>, b: seq<string>)
    ensures Unlines(a + b) == Unlines(a) + Unlines(b)
  {
    if a == [] {
      assert a + b == b;
    } else {
      assert (a + b)[1..] == a[1..] + b;
      UnlinesAppend(a[1..], b);
    }
  }

  lemma {:induction false} JoinIsUnlines(parts: seq<string>)
    requires parts != []
    ensures Join("\n", parts) + "\n" == Unlines(parts)
  {
    if |parts| == 1 {
      assert Unlines(parts[1..]) == "";
    } else {
      JoinIsUnlines(parts[1..]);
    }
  }

  // ---------------------------------------------------------------------
  // Reading a text line by line
  // ---------------------------------------------------------------------

  /** The state after feeding `items` to `step`, which also sees the one-based number of each item. */
  ghost function FoldLines<S, T>(step: (S, nat, T) -> S, st: S, no: nat, items: seq<T>): S
    decreases |items|
  {
    if items == [] then st else FoldLines(step, step(st, no + 1, items[0]), no + 1, items[1..])
  }

  lemma FoldHead<S, T>(step: (S, nat, T) -> S, st: S, no: nat, head: T, rest: seq<T>)
    ensures FoldLines(step, st, no, [head]) == step(st, no + 1, head)
    ensures FoldLines(step, st, no, [head] + rest) == FoldLines(step, step(st, no + 1, head), no + 1, rest)
  {
    assert ([head] + rest)[1..] == rest && [head][1..] == [];
  }

  lemma {:induction false} FoldAppend<S, T>(step: (S, nat, T) -> S, st: S, no: nat, a: seq<T>, b: seq<T>)
    ensures FoldLines(step, st, no, a + b) == FoldLines(step, FoldLines(step, st, no, a), no + |a|, b)
    decreases |a|
  {
    if a == [] {
      assert a + b == b;
    } else {
      assert (a + b)[1..] == a[1..] + b;
      FoldAppend(step, step(st, no + 1, a[0]), no + 1, a[1..], b);
    }
  }

  /** Reading raw items is reading their classifications. */
  lemma {:induction false} FoldMap<S(!new), A(!new), B>(f: (S, nat, A) -> S, g: (S, nat, B) -> S, classify: A -> B,
                                                   st: S, no: nat, raw: seq<A>, items: seq<B>)
    requires forall s, n, a :: f(s, n, a) == g(s, n, classify(a))
    requires |raw| == |items| && forall k :: 0 <= k < |raw| ==> items[k] == classify(raw[k])
    ensures FoldLines(f, st, no, raw) == FoldLines(g, st, no, items)
    decreases |raw|
  {
    if raw != [] {
      assert f(st, no + 1, raw[0]) == g(st, no + 1, items[0]);
      FoldMap(f, g, classify, f(st, no + 1, raw[0]), no + 1, raw[1..], items[1..]);
    }
  }

  lemma {:induction false} FoldInvariant<S(!new)>(step: (S, nat, string) -> S, inv: S -> bool,
                                                  st: S, no: nat, lines: seq<string>)
    requires inv(st) && forall line <- lines :: SingleLine(line)
    requires forall s, n, raw :: inv(s) && SingleLine(raw) ==> inv(step(s, n, raw))
    ensures inv(FoldLines(step, st, no, lines))
    decreases |lines|
  {
    if lines != [] {
      FoldInvariant(step, inv, step(st, no + 1, lines[0]), no + 1, lines[1..]);
    }
  }

  ghost function MapSeq<A, B>(f: A -> B, items: seq<A>): (r: seq<B>)
    ensures |r| == |items| && forall k :: 0 <= k < |items| ==> r[k] == f(items[k])
  {
    seq(|items|, i requires 0 <= i < |items| => f(items[i]))
  }

  lemma MapAppend<A, B>(f: A -> B, a: seq<A>, b: seq<A>)
    ensures MapSeq(f, a + b) == MapSeq(f, a) + MapSeq(f, b)
  {
  }
}
