/** Ascending lists of strings: the order of field names in reports and revisions. */
module StringOrder {

  predicate Less(a: string, b: string) {
    b != [] && (a == [] || a[0] < b[0] || (a[0] == b[0] && Less(a[1..], b[1..])))
  }

  lemma {:induction false} NotLessThanItself(a: string)
    ensures !Less(a, a)
  {
    if a != [] {
      NotLessThanItself(a[1..]);
    }
  }

  lemma {:induction false} LessOrMore(a: string, b: string)
    ensures a == b || Less(a, b) || Less(b, a)
    ensures !(Less(a, b) && Less(b, a)) && !Less(a, a)
    decreases |a|
  {
    NotLessThanItself(a);
    if a != [] && b != [] && a[0] == b[0] {
      LessOrMore(a[1..], b[1..]);
      assert a == [a[0]] + a[1..] && b == [b[0]] + b[1..];
    }
  }

  lemma {:induction false} LessIsTransitive(a: string, b: string, c: string)
    requires Less(a, b) && Less(b, c)
    ensures Less(a, c)
    decreases |a|
  {
    if a != [] && a[0] == b[0] && b[0] == c[0] {
      LessIsTransitive(a[1..], b[1..], c[1..]);
    }
  }

  predicate Ascending(xs: seq<string>) {
    forall i, j :: 0 <= i < j < |xs| ==> Less(xs[i], xs[j])
  }

  ghost predicate Lists(xs: seq<string>, keys: set<string>) {
    Ascending(xs) && forall k :: k in xs <==> k in keys
  }

  function Insert(xs: seq<string>, k: string): (r: seq<string>)
    ensures forall x :: x in r <==> x in xs || x == k
  {
    if xs == [] then [k]
    else if Less(k, xs[0]) then [k] + xs
    else [xs[0]] + Insert(xs[1..], k)
  }

  lemma {:induction false} InsertAscends(xs: seq<string>, k: string)
    requires Ascending(xs) && k !in xs
    ensures Ascending(Insert(xs, k))
  {
    if xs == [] {
    } else if Less(k, xs[0]) {
      forall j | 0 <= j < |xs| ensures Less(k, xs[j]) {
        if j > 0 {
          LessIsTransitive(k, xs[0], xs[j]);
        }
      }
    } else {
      LessOrMore(k, xs[0]);
      InsertAscends(xs[1..], k);
      forall x | x in Insert(xs[1..], k) ensures Less(xs[0], x) {
      }
    }
  }

  lemma NothingListed(xs: seq<string>, ys: seq<string>)
    requires forall k :: k in xs <==> k in ys
    ensures xs == [] <==> ys == []
  {
    assert |xs| > 0 ==> xs[0] in xs;
    assert |ys| > 0 ==> ys[0] in ys;
  }

  lemma {:induction false} ListingsAgree(xs: seq<string>, ys: seq<string>, keys: set<string>)
    requires Lists(xs, keys) && Lists(ys, keys)
    ensures xs == ys
    decreases |xs|
  {
    NothingListed(xs, ys);
    if xs != [] && ys != [] {
      assert xs[0] in ys && ys[0] in xs;
      if xs[0] != ys[0] {
        LessOrMore(xs[0], ys[0]);
        FirstIsLeast(xs, ys[0]);
        FirstIsLeast(ys, xs[0]);
        assert false;
      }
      TailLists(xs, keys);
      TailLists(ys, keys);
      ListingsAgree(xs[1..], ys[1..], keys - {xs[0]});
    }
  }

  lemma FirstIsLeast(xs: seq<string>, k: string)
    requires Ascending(xs) && k in xs
    ensures k == xs[0] || Less(xs[0], k)
  {
  }

  lemma TailLists(xs: seq<string>, keys: set<string>)
    requires Lists(xs, keys) && xs != []
    ensures Lists(xs[1..], keys - {xs[0]})
  {
    LessOrMore(xs[0], xs[0]);
    forall k ensures k in xs[1..] <==> k in keys - {xs[0]} {
      if k in xs[1..] {
        assert Less(xs[0], k);
      }
    }
  }

  lemma {:induction false} ListingExists(keys: set<string>)
    ensures exists xs: seq<string> :: Lists(xs, keys)
    decreases |keys|
  {
    if keys == {} {
      assert Lists([], keys);
    } else {
      var k :| k in keys;
      ListingExists(keys - {k});
      var xs: seq<string> :| Lists(xs, keys - {k});
      InsertAscends(xs, k);
      assert Lists(Insert(xs, k), keys);
    }
  }

  /** The keys in ascending order. */
  ghost function Sorted(keys: set<string>): (xs: seq<string>)
    ensures Lists(xs, keys)
  {
    ListingExists(keys);
    var xs: seq<string> :| Lists(xs, keys);
    xs
  }

  method SortKeys(keys: set<string>) returns (xs: seq<string>)
    ensures xs == Sorted(keys)
    ensures Lists(xs, keys)
  {
    xs := [];
    var rest := keys;
    while rest != {}
      invariant rest <= keys && Lists(xs, keys - rest)
      decreases |rest|
    {
      var k :| k in rest;
      InsertAscends(xs, k);
      xs := Insert(xs, k);
      rest := rest - {k};
    }
    ListingsAgree(xs, Sorted(keys), keys);
  }
}
