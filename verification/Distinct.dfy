/** Order-preserving removal of duplicates, as `dict.fromkeys` and a list guarded by a seen set do it. */
module Distinct {

  /** Each element once, in the order of first occurrence. */
  function Dedup<T(==)>(s: seq<T>): (r: seq<T>)
  {
    if s == [] then []
    else
      var front, last := Dedup(s[..|s| - 1]), s[|s| - 1];
      if last in front then front else front + [last]
  }

  lemma DedupSnoc<T>(s: seq<T>, x: T)
    ensures Dedup(s + [x]) == if x in Dedup(s) then Dedup(s) else Dedup(s) + [x]
  {
    assert (s + [x])[..|s|] == s;
  }

  lemma {:induction false} DedupKeepsMembers<T>(s: seq<T>)
    ensures forall x :: x in Dedup(s) <==> x in s
  {
    if s != [] {
      var front := s[..|s| - 1];
      DedupKeepsMembers(front);
      assert s == front + [s[|s| - 1]];
    }
  }

  lemma DedupMember<T>(s: seq<T>, x: T)
    ensures x in Dedup(s) <==> x in s
  {
    DedupKeepsMembers(s);
  }

  ghost predicate NoDuplicates<T(!new)>(s: seq<T>)
  {
    forall i, j :: 0 <= i < j < |s| ==> s[i] != s[j]
  }

  lemma {:induction false} DedupHasNoDuplicates<T(!new)>(s: seq<T>)
    ensures NoDuplicates(Dedup(s))
  {
    if s != [] {
      DedupHasNoDuplicates(s[..|s| - 1]);
    }
  }

  /** Index of the first occurrence of `x`. */
  ghost function FirstAt<T>(s: seq<T>, x: T): (k: nat)
    requires x in s
    ensures k < |s| && s[k] == x && x !in s[..k]
  {
    if s[0] == x then 0 else 1 + FirstAt(s[1..], x)
  }

  lemma {:induction false} FirstAtMost<T>(s: seq<T>, x: T, i: nat)
    requires i < |s| && s[i] == x
    ensures x in s && FirstAt(s, x) <= i
  {
    if s[0] != x {
      FirstAtMost(s[1..], x, i - 1);
    }
  }

  lemma {:induction false} FirstAtGrows<T>(s: seq<T>, t: seq<T>, x: T)
    requires x in s
    ensures FirstAt(s + t, x) == FirstAt(s, x)
  {
    if s[0] != x {
      assert (s + t)[1..] == s[1..] + t;
      FirstAtGrows(s[1..], t, x);
    }
  }

  /** The survivors stand in the order in which their values first occurred. */
  lemma {:induction false} DedupKeepsOrder<T>(s: seq<T>, i: nat, j: nat)
    requires i < j < |Dedup(s)|
    ensures Dedup(s)[i] in s && Dedup(s)[j] in s
    ensures FirstAt(s, Dedup(s)[i]) < FirstAt(s, Dedup(s)[j])
  {
    var front, d := s[..|s| - 1], Dedup(s);
    assert s == front + [s[|s| - 1]];
    DedupKeepsMembers(s);
    DedupKeepsMembers(front);
    if j < |Dedup(front)| {
      DedupKeepsOrder(front, i, j);
      FirstAtGrows(front, [s[|s| - 1]], d[i]);
      FirstAtGrows(front, [s[|s| - 1]], d[j]);
    } else {
      DedupMember(front, d[i]);
      FirstAtGrows(front, [s[|s| - 1]], d[i]);
    }
  }

  function Without<T(==)>(s: seq<T>, gone: seq<T>): seq<T>
  {
    if s == [] then []
    else
      var front, last := Without(s[..|s| - 1], gone), s[|s| - 1];
      if last in gone then front else front + [last]
  }

  lemma WithoutSnoc<T>(s: seq<T>, x: T, gone: seq<T>)
    ensures Without(s + [x], gone) == if x in gone then Without(s, gone) else Without(s, gone) + [x]
  {
    assert (s + [x])[..|s|] == s;
  }

  lemma AppendOne<T>(a: seq<T>, front: seq<T>, last: T)
    requires Dedup(a + front) == Dedup(a) + Without(Dedup(front), a)
    ensures Dedup(a + front + [last]) == Dedup(a) + Without(Dedup(front + [last]), a)
  {
    DedupSnoc(a + front, last);
    DedupSnoc(front, last);
    DedupMember(a + front, last);
    DedupMember(front, last);
    WithoutSnoc(Dedup(front), last, a);
  }

  /** Of `a + b`: the distinct elements of `a`, then those of `b` that are not in `a`. */
  lemma {:induction false} DedupAppend<T>(a: seq<T>, b: seq<T>)
    ensures Dedup(a + b) == Dedup(a) + Without(Dedup(b), a)
  {
    if b == [] {
      assert a + b == a;
    } else {
      var front, last := b[..|b| - 1], b[|b| - 1];
      DedupAppend(a, front);
      AppendOne(a, front, last);
      assert b == front + [last] && a + b == a + front + [last];
    }
  }

  /** Removing duplicates early changes nothing. */
  lemma DedupAbsorbs<T>(a: seq<T>, b: seq<T>)
    ensures Dedup(Dedup(a) + b) == Dedup(a + b)
  {
    DedupAppend(a, b);
    DedupAppend(Dedup(a), b);
    DedupKeepsMembers(a);
    DedupTwice(a);
    WithoutSame(Dedup(b), a, Dedup(a));
  }

  lemma {:induction false} WithoutSame<T>(s: seq<T>, a: seq<T>, b: seq<T>)
    requires forall x :: x in a <==> x in b
    ensures Without(s, a) == Without(s, b)
  {
    if s != [] {
      WithoutSame(s[..|s| - 1], a, b);
    }
  }

  lemma {:induction false} DedupTwice<T>(s: seq<T>)
    ensures Dedup(Dedup(s)) == Dedup(s)
  {
    if s != [] {
      var front, last := s[..|s| - 1], s[|s| - 1];
      DedupTwice(front);
      if last !in Dedup(front) {
        DedupSnoc(Dedup(front), last);
      }
    }
  }

  /** Elements already present add nothing. */
  lemma {:induction false} DedupRepeats<T>(a: seq<T>, b: seq<T>)
    requires forall x <- b :: x in a
    ensures Dedup(a + b) == Dedup(a)
  {
    if b == [] {
      assert a + b == a;
    } else {
      var front, last := b[..|b| - 1], b[|b| - 1];
      DedupRepeats(a, front);
      assert a + b == (a + front) + [last];
      DedupSnoc(a + front, last);
      DedupKeepsMembers(a);
    }
  }
}
