/** The order `sorted` puts texts in: by code points, a prefix before what extends it. */
module TextOrder {

  predicate Less(a: string, b: string)
  {
    b != "" && (a == "" || a[0] < b[0] || (a[0] == b[0] && Less(a[1..], b[1..])))
  }

  lemma {:induction false} LessIsTotal(a: string, b: string)
    ensures Less(a, b) || a == b || Less(b, a)
    ensures Less(a, b) ==> a != b && !Less(b, a)
  {
    if a != "" && b != "" && a[0] == b[0] {
      LessIsTotal(a[1..], b[1..]);
      assert a == [a[0]] + a[1..] && b == [b[0]] + b[1..];
    }
  }

  lemma {:induction false} LessIsTransitive(a: string, b: string, c: string)
    requires Less(a, b) && Less(b, c)
    ensures Less(a, c)
  {
    if a != "" && a[0] == b[0] == c[0] {
      LessIsTransitive(a[1..], b[1..], c[1..]);
    }
  }

  ghost predicate Ascending(s: seq<string>)
  {
    forall i, j :: 0 <= i < j < |s| ==> Less(s[i], s[j])
  }

  /** `x` put in its place in an ascending list, unless it is there already. */
  function Insert(s: seq<string>, x: string): seq<string>
  {
    if s == [] then [x]
    else if Less(x, s[0]) then [x] + s
    else if x == s[0] then s
    else [s[0]] + Insert(s[1..], x)
  }

  lemma {:induction false} InsertMembers(s: seq<string>, x: string)
    ensures forall y :: y in Insert(s, x) <==> y in s || y == x
  {
    if s != [] {
      assert s == [s[0]] + s[1..];
      InsertMembers(s[1..], x);
    }
  }

  lemma Prepend(x: string, s: seq<string>)
    requires Ascending(s) && forall y <- s :: Less(x, y)
    ensures Ascending([x] + s)
  {
  }

  lemma {:induction false} InsertKeepsAscending(s: seq<string>, x: string)
    requires Ascending(s)
    ensures Ascending(Insert(s, x))
  {
    if s != [] {
      LessIsTotal(x, s[0]);
      if Less(x, s[0]) {
        forall y | y in s
          ensures Less(x, y)
        {
          var k :| 0 <= k < |s| && s[k] == y;
          if k > 0 {
            LessIsTransitive(x, s[0], y);
          }
        }
        Prepend(x, s);
      } else if x != s[0] {
        InsertKeepsAscending(s[1..], x);
        InsertMembers(s[1..], x);
        assert forall y <- s[1..] :: Less(s[0], y);
        Prepend(s[0], Insert(s[1..], x));
      }
    }
  }

  method SortTexts(texts: set<string>) returns (r: seq<string>)
    ensures Ascending(r) && forall x :: x in r <==> x in texts
  {
    r := [];
    var rest := texts;
    while rest != {}
      invariant Ascending(r) && rest <= texts
      invariant forall x :: x in r <==> x in texts && x !in rest
    {
      var x :| x in rest;
      InsertKeepsAscending(r, x);
      InsertMembers(r, x);
      r := Insert(r, x);
      rest := rest - {x};
    }
  }

  lemma TailMembers(s: seq<string>)
    requires s != [] && Ascending(s)
    ensures forall x :: x in s[1..] <==> x in s && x != s[0]
  {
    assert s == [s[0]] + s[1..];
    forall x | x in s[1..]
      ensures x != s[0]
    {
      LessIsTotal(s[0], x);
    }
  }

  /** An ascending list is determined by its members. */
  lemma {:induction false} AscendingIsUnique(a: seq<string>, b: seq<string>)
    requires Ascending(a) && Ascending(b) && forall x :: x in a <==> x in b
    ensures a == b
  {
    assert (a == [] || a[0] in a) && (b == [] || b[0] in b);
    if a != [] && b != [] {
      LessIsTotal(a[0], b[0]);
      TailMembers(a);
      TailMembers(b);
      AscendingIsUnique(a[1..], b[1..]);
    }
  }
}
