/** Case mapping, substring search and character classes, with the non-ASCII part left to the host's tables. */
module Casing {
  import opened PyText

  type Hex8 = s: string | |s| == 8 && forall c <- s :: IsHex(c) witness "00000000"

  predicate IsHex(c: char)
  {
    '0' <= c <= '9' || 'a' <= c <= 'f'
  }

  /**
   What the interpreter supplies: the Unicode tables beyond ASCII (a character
   may map to several) and the first eight hex digits of a SHA-256.
   */
  datatype Host = Host(
    alnum: char -> bool,
    digit: char -> bool,
    lower: char -> string,
    upper: char -> string,
    digest: string -> Hex8)

  predicate IsAscii(c: char)
  {
    c as int < 128
  }

  predicate IsUpperAscii(c: char)
  {
    'A' <= c <= 'Z'
  }

  predicate IsLowerAscii(c: char)
  {
    'a' <= c <= 'z'
  }

  predicate IsDigitAscii(c: char)
  {
    '0' <= c <= '9'
  }

  predicate IsAlnum(h: Host, c: char)
  {
    if IsAscii(c) then IsUpperAscii(c) || IsLowerAscii(c) || IsDigitAscii(c) else !IsSpace(c) && h.alnum(c)
  }

  predicate IsDigit(h: Host, c: char)
  {
    if IsAscii(c) then IsDigitAscii(c) else h.digit(c)
  }

  function LowerChar(h: Host, c: char): string
  {
    if IsUpperAscii(c) then [(c as int + 32) as char] else if IsAscii(c) then [c] else h.lower(c)
  }

  function UpperChar(h: Host, c: char): string
  {
    if IsLowerAscii(c) then [(c as int - 32) as char] else if IsAscii(c) then [c] else h.upper(c)
  }

  lemma AsciiClasses(c: char)
    ensures IsUpperAscii(c) <==> c in CAPITAL_LETTERS
    ensures IsLowerAscii(c) <==> c in SMALL_LETTERS
    ensures IsDigitAscii(c) <==> c in DIGITS
  {
  }

  /** Each character replaced by its image. */
  function MapChars(f: char -> string, s: string): string
  {
    if s == "" then "" else f(s[0]) + MapChars(f, s[1..])
  }

  function Lower(h: Host, s: string): string
  {
    MapChars(c => LowerChar(h, c), s)
  }

  function Upper(h: Host, s: string): string
  {
    MapChars(c => UpperChar(h, c), s)
  }

  /** On ASCII text the two case mappings undo each other, as far as case is kept. */
  lemma {:induction false} CaseMappings(h: Host, s: string)
    requires forall c <- s :: IsAscii(c)
    ensures Lower(h, Upper(h, s)) == Lower(h, s) && Upper(h, Lower(h, s)) == Upper(h, s)
    ensures (forall c <- Lower(h, s) :: !IsUpperAscii(c)) && (forall c <- Upper(h, s) :: !IsLowerAscii(c))
  {
    if s != "" {
      CaseMappings(h, s[1..]);
      OneCase(h, s[0], Upper(h, s[1..]), Lower(h, s[1..]));
      assert Upper(h, s) == UpperChar(h, s[0]) + Upper(h, s[1..]);
      assert Lower(h, s) == LowerChar(h, s[0]) + Lower(h, s[1..]);
    }
  }

  lemma OneCase(h: Host, c: char, up: string, low: string)
    requires IsAscii(c)
    ensures Lower(h, UpperChar(h, c) + up) == LowerChar(h, c) + Lower(h, up)
    ensures Upper(h, LowerChar(h, c) + low) == UpperChar(h, c) + Upper(h, low)
  {
    var u, l := UpperChar(h, c), LowerChar(h, c);
    assert (u + up)[0] == u[0] && (u + up)[1..] == up && LowerChar(h, u[0]) == l;
    assert (l + low)[0] == l[0] && (l + low)[1..] == low && UpperChar(h, l[0]) == u;
  }

  lemma {:induction false} MapCharsAppend(f: char -> string, a: string, b: string)
    ensures MapChars(f, a + b) == MapChars(f, a) + MapChars(f, b)
  {
    if a == "" {
      assert a + b == b;
    } else {
      assert (a + b)[1..] == a[1..] + b;
      MapCharsAppend(f, a[1..], b);
    }
  }

  lemma {:induction false} MapCharsFixed(f: char -> string, s: string)
    requires forall c <- s :: f(c) == [c]
    ensures MapChars(f, s) == s
  {
    if s != "" {
      MapCharsFixed(f, s[1..]);
    }
  }

  /** A one-to-one image in length. */
  lemma {:induction false} MapCharsPointwise(f: char -> string, s: string)
    requires forall c <- s :: |f(c)| == 1
    ensures |MapChars(f, s)| == |s| && forall k :: 0 <= k < |s| ==> [MapChars(f, s)[k]] == f(s[k])
  {
    if s != "" {
      var rest := MapChars(f, s[1..]);
      assert s[0] in s && forall c <- s[1..] :: c in s;
      MapCharsPointwise(f, s[1..]);
      assert MapChars(f, s) == f(s[0]) + rest;
    }
  }

  // ---------------------------------------------------------------------
  // Substrings
  // ---------------------------------------------------------------------

  predicate OccursAt(s: string, word: string, i: int)
  {
    0 <= i <= |s| - |word| && s[i..i + |word|] == word
  }

  predicate Contains(s: string, word: string)
  {
    exists i | 0 <= i <= |s| :: OccursAt(s, word, i)
  }

  predicate ContainsAny(s: string, words: seq<string>)
  {
    exists w <- words :: Contains(s, w)
  }

  predicate StartsWithAny(s: string, words: seq<string>)
  {
    exists w <- words :: w <= s
  }

  // Containment, written out.

  ghost predicate Occurs(text: string, word: string)
  {
    exists p: nat :: OccursFrom(text, word, p)
  }

  ghost predicate OccursFrom(text: string, word: string, p: nat)
  {
    p + |word| <= |text| && text[p..p + |word|] == word
  }

  ghost predicate SomeOccurs(text: string, words: seq<string>)
  {
    exists w <- words :: Occurs(text, w)
  }

  lemma ContainsIsOccurs(text: string, word: string)
    ensures Contains(text, word) <==> Occurs(text, word)
  {
    if Occurs(text, word) {
      var p: nat :| OccursFrom(text, word, p);
      assert OccursAt(text, word, p);
    }
    if Contains(text, word) {
      var i :| 0 <= i <= |text| && OccursAt(text, word, i);
      assert OccursFrom(text, word, i);
    }
  }

  lemma AnyIsSome(text: string, words: seq<string>)
    ensures ContainsAny(text, words) <==> SomeOccurs(text, words)
  {
    forall w | w in words
      ensures Contains(text, w) <==> Occurs(text, w)
    {
      ContainsIsOccurs(text, w);
    }
  }

  lemma ContainsInside(a: string, b: string, c: string, word: string)
    requires Contains(b, word)
    ensures Contains(a + b + c, word)
  {
    var i :| 0 <= i <= |b| && OccursAt(b, word, i);
    assert (a + b + c)[|a| + i..|a| + i + |word|] == b[i..i + |word|];
    assert OccursAt(a + b + c, word, |a| + i);
  }

  /** What a stretch of the text contains in lower case, the text contains in lower case. */
  lemma LowerContains(h: Host, a: string, b: string, c: string, word: string)
    requires Contains(Lower(h, b), word)
    ensures Contains(Lower(h, a + b + c), word)
  {
    var f := c => LowerChar(h, c);
    MapCharsAppend(f, a + b, c);
    MapCharsAppend(f, a, b);
    ContainsInside(MapChars(f, a), MapChars(f, b), MapChars(f, c), word);
  }
}
