/** Slugs: a text reduced to lower-case letters, digits and single dashes. */
module Slugs {
  import opened PyText
  import opened Casing

  const MAX_SLUG := 48

  /** Every character that is not alphanumeric becomes a dash. */
  function Dashed(h: Host, s: string): (r: string)
    ensures |r| == |s| && forall k :: 0 <= k < |s| ==> r[k] == if IsAlnum(h, s[k]) then s[k] else '-'
  {
    seq(|s|, i requires 0 <= i < |s| => if IsAlnum(h, s[i]) then s[i] else '-')
  }

  function TrimDashes(s: string): (r: string)
    ensures r != "" ==> r[0] != '-' && r[|r| - 1] != '-'
    ensures forall c <- r :: c in s
    decreases |s|
  {
    if s == "" then ""
    else if s[0] == '-' then TrimDashes(s[1..])
    else if s[|s| - 1] == '-' then TrimDashes(s[..|s| - 1])
    else s
  }

  predicate HasDouble(s: string)
  {
    exists i :: 0 <= i < |s| - 1 && s[i] == '-' && s[i + 1] == '-'
  }

  /** Left-to-right, non-overlapping replacement of two dashes by one. */
  function Halve(s: string): string
  {
    if |s| >= 2 && s[0] == '-' && s[1] == '-' then "-" + Halve(s[2..])
    else if s == "" then ""
    else [s[0]] + Halve(s[1..])
  }

  /** Every run of dashes reduced to one: a dash right after a dash is dropped. */
  function Collapse(s: string): string
  {
    if s == "" then ""
    else if |s| >= 2 && s[|s| - 1] == '-' && s[|s| - 2] == '-' then Collapse(s[..|s| - 1])
    else Collapse(s[..|s| - 1]) + [s[|s| - 1]]
  }

  lemma {:induction false} HalveShrinks(s: string)
    ensures |Halve(s)| <= |s|
    ensures HasDouble(s) ==> |Halve(s)| < |s|
  {
    if |s| >= 2 && s[0] == '-' && s[1] == '-' {
      HalveShrinks(s[2..]);
    } else if s != "" {
      HalveShrinks(s[1..]);
      if HasDouble(s) {
        var i :| 0 <= i < |s| - 1 && s[i] == '-' && s[i + 1] == '-';
        assert s[1..][i - 1] == '-' && s[1..][i] == '-';
      }
    }
  }

  /** Collapsing from the front: the first of two leading dashes may be dropped instead. */
  lemma {:induction false} CollapseFront(s: string)
    requires s != ""
    ensures |s| >= 2 && s[0] == '-' && s[1] == '-' ==> Collapse(s) == Collapse(s[1..])
    ensures !(|s| >= 2 && s[0] == '-' && s[1] == '-') ==> Collapse(s) == [s[0]] + Collapse(s[1..])
    decreases |s|
  {
    if |s| == 1 {
      assert Collapse(s[..0]) == "" && Collapse(s[1..]) == "";
    } else {
      var front := s[..|s| - 1];
      CollapseFront(front);
      assert front[1..] == s[1..][..|s| - 2];
      if |s| == 2 {
        assert front == [s[0]] && Collapse(front[1..]) == "";
      }
    }
  }

  /** One replacement pass does not change what the text collapses to. */
  lemma {:induction false} HalveKeepsCollapse(s: string)
    ensures Collapse(Halve(s)) == Collapse(s)
    ensures s != "" ==> Halve(s) != "" && Halve(s)[0] == s[0]
  {
    if |s| >= 2 && s[0] == '-' && s[1] == '-' {
      HalveKeepsCollapse(s[2..]);
      HalveKeepsTail("-", s[2..]);
      CollapseFront(s);
      assert s[1..] == "-" + s[2..];
    } else if s != "" {
      HalveKeepsCollapse(s[1..]);
      HalveKeepsTail([s[0]], s[1..]);
      assert s == [s[0]] + s[1..];
    }
  }

  /** The first character's part in collapsing depends only on what follows it. */
  lemma HalveKeepsTail(head: string, tail: string)
    requires |head| == 1
    requires Collapse(Halve(tail)) == Collapse(tail)
    requires tail != "" ==> Halve(tail) != "" && Halve(tail)[0] == tail[0]
    ensures Collapse(head + Halve(tail)) == Collapse(head + tail)
  {
    CollapseFront(head + Halve(tail));
    CollapseFront(head + tail);
    assert (head + Halve(tail))[1..] == Halve(tail) && (head + tail)[1..] == tail;
    if tail == "" {
      assert Halve(tail) == tail;
    }
  }

  lemma PrefixIsSingleDashed(s: string, n: nat)
    requires !HasDouble(s) && n <= |s|
    ensures !HasDouble(s[..n])
  {
  }

  lemma {:induction false} CollapseOfSingles(s: string)
    requires !HasDouble(s)
    ensures Collapse(s) == s
  {
    if s != "" {
      var front := s[..|s| - 1];
      assert s == front + [s[|s| - 1]];
      PrefixIsSingleDashed(s, |s| - 1);
      CollapseOfSingles(front);
    }
  }

  /** The collapsed text has no double dash, keeps both ends, and keeps every character but dashes. */
  lemma {:induction false} CollapseShape(s: string)
    ensures !HasDouble(Collapse(s))
    ensures s != "" ==> Collapse(s) != "" && Collapse(s)[0] == s[0] && Collapse(s)[|Collapse(s)| - 1] == s[|s| - 1]
    ensures forall c <- Collapse(s) :: c in s
    ensures NonDashes(Collapse(s)) == NonDashes(s)
  {
    if s != "" {
      CollapseShape(s[..|s| - 1]);
      assert s == s[..|s| - 1] + [s[|s| - 1]];
    }
  }

  ghost function NonDashes(s: string): string
  {
    if s == "" then "" else NonDashes(s[..|s| - 1]) + if s[|s| - 1] == '-' then "" else [s[|s| - 1]]
  }

  ghost function SlugOf(h: Host, text: string): string
  {
    var cleaned := Collapse(TrimDashes(Dashed(h, Lower(h, text))));
    var cut := if |cleaned| <= MAX_SLUG then cleaned else cleaned[..MAX_SLUG];
    if cut == "" then "requirement" else cut
  }

  /** The replace-until-stable loop computes the collapsed text; it stops because each pass shortens it. */
  method Slug(h: Host, text: string) returns (slug: string)
    ensures slug == SlugOf(h, text)
  {
    var cleaned := TrimDashes(Dashed(h, Lower(h, text)));
    ghost var target := Collapse(cleaned);
    while HasDouble(cleaned)
      invariant Collapse(cleaned) == target
      decreases |cleaned|
    {
      HalveShrinks(cleaned);
      HalveKeepsCollapse(cleaned);
      cleaned := Halve(cleaned);
    }
    CollapseOfSingles(cleaned);
    slug := if |cleaned| <= MAX_SLUG then cleaned else cleaned[..MAX_SLUG];
    if slug == "" {
      slug := "requirement";
    }
  }

  predicate IsSlugChar(h: Host, c: char)
  {
    c == '-' || IsAlnum(h, c)
  }

  /** What a slug looks like, for every text. */
  lemma SlugShape(h: Host, text: string)
    ensures 0 < |SlugOf(h, text)| <= MAX_SLUG
    ensures !HasDouble(SlugOf(h, text)) && SlugOf(h, text)[0] != '-'
    ensures forall c <- SlugOf(h, text) :: IsSlugChar(h, c)
  {
    var dashed := Dashed(h, Lower(h, text));
    var cleaned := TrimDashes(dashed);
    CollapseShape(cleaned);
    if |Collapse(cleaned)| > MAX_SLUG {
      PrefixIsSingleDashed(Collapse(cleaned), MAX_SLUG);
    }
    forall c | c in cleaned
      ensures IsSlugChar(h, c)
    {
      assert c in dashed;
    }
  }

  /** The alphanumeric characters of a text. */
  function Alnums(h: Host, s: string): string
  {
    if s == "" then ""
    else Alnums(h, s[..|s| - 1]) + if IsAlnum(h, s[|s| - 1]) then [s[|s| - 1]] else ""
  }

  lemma {:induction false} DashedKeepsAlnums(h: Host, s: string)
    ensures NonDashes(Dashed(h, s)) == Alnums(h, s)
  {
    if s != "" {
      var d := Dashed(h, s);
      DashedKeepsAlnums(h, s[..|s| - 1]);
      assert d[..|d| - 1] == Dashed(h, s[..|s| - 1]);
    }
  }

  lemma {:induction false} NonDashesAppend(a: string, b: string)
    ensures NonDashes(a + b) == NonDashes(a) + NonDashes(b)
  {
    if b == "" {
      assert a + b == a;
    } else {
      assert (a + b)[..|a + b| - 1] == a + b[..|b| - 1];
      NonDashesAppend(a, b[..|b| - 1]);
    }
  }

  lemma {:induction false} TrimKeepsNonDashes(s: string)
    ensures NonDashes(TrimDashes(s)) == NonDashes(s)
    decreases |s|
  {
    if s != "" && s[0] == '-' {
      TrimKeepsNonDashes(s[1..]);
      NonDashesAppend([s[0]], s[1..]);
      assert s == [s[0]] + s[1..] && NonDashes([s[0]]) == "";
    } else if s != "" && s[|s| - 1] == '-' {
      TrimKeepsNonDashes(s[..|s| - 1]);
    }
  }

  /** The slug is `whole` cut at 48 characters, and `whole` spells the alphanumeric characters of `text` in lower case. */
  ghost predicate Spells(h: Host, text: string, whole: string, slug: string)
  {
    && NonDashes(whole) == Alnums(h, Lower(h, text))
    && !HasDouble(whole) && (whole != "" ==> whole[0] != '-' && whole[|whole| - 1] != '-')
    && slug == if whole == "" then "requirement" else if |whole| <= 48 then whole else whole[..48]
  }

  /** Before the cut a slug spells the alphanumeric characters of the lower-cased text, in order, and ends in one. */
  lemma SlugSpells(h: Host, text: string)
    ensures exists whole :: Spells(h, text, whole, SlugOf(h, text))
  {
    var dashed := Dashed(h, Lower(h, text));
    DashedKeepsAlnums(h, Lower(h, text));
    TrimKeepsNonDashes(dashed);
    CollapseShape(TrimDashes(dashed));
    assert Spells(h, text, Collapse(TrimDashes(dashed)), SlugOf(h, text));
  }
}
